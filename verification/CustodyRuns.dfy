/** Theorems about whole runs: exactly-once custody, conservation, fencing of
    leases, claims that others cannot spoil, and protection against replay. */
module CustodyRuns {
  import opened Basics
  import opened Crypto
  import opened ControlObjects
  import opened Settlement
  import opened Ordered
  import opened Custody
  import opened CustodyInvariant
  import opened CustodySteps

  ghost predicate ValidAt(env: Env, t: seq<Entry>, k: nat)
    requires k < |t|
  {
    IsStep(env, t[k])
  }

  ghost predicate LinkAt(t: seq<Entry>, k: nat)
    requires 0 < k < |t|
  {
    t[k].before == t[k - 1].after
  }

  /** A run of the hub from its empty tables: any operations, by anyone, at any
      clock readings. */
  ghost predicate IsTrace(env: Env, t: seq<Entry>) {
    && env.limits.Valid()
    && (t != [] ==> t[0].before == EMPTY)
    && (forall k {:trigger ValidAt(env, t, k)} :: 0 <= k < |t| ==> ValidAt(env, t, k))
    && (forall k {:trigger LinkAt(t, k)} :: 0 < k < |t| ==> LinkAt(t, k))
  }

  ghost predicate Monotone(t: seq<Entry>) {
    forall i, j :: 0 <= i <= j < |t| ==> t[i].now <= t[j].now
  }

  /** The entry that an operation adds to a run. */
  function Next(env: Env, s: Store, op: Op, now: int): (e: Entry)
    ensures IsStep(env, e) && e.before == s && e.op == op && e.now == now
  {
    var r := Attempt(env, s, op, now);
    Entry(s, op, now, Step(env, s, op, now), if r.Ok? then Ok(r.value.1) else Err(r.error))
  }

  /** Every run can go on with any operation at any clock reading. */
  lemma RunGoesOn(env: Env, t: seq<Entry>, op: Op, now: int) returns (e: Entry)
    requires IsTrace(env, t) && t != []
    ensures e.op == op && e.now == now && e.before == t[|t| - 1].after
    ensures IsStep(env, e) && IsTrace(env, t + [e])
  {
    e := Next(env, t[|t| - 1].after, op, now);
    hide IsStep;
    var u := t + [e];
    forall k {:trigger ValidAt(env, u, k)} | 0 <= k < |u| ensures ValidAt(env, u, k) {
      assert k < |t| ==> ValidAt(env, t, k);
    }
    forall k {:trigger LinkAt(u, k)} | 0 < k < |u| ensures LinkAt(u, k) {
      assert k < |t| ==> LinkAt(t, k);
    }
  }

  /** Every state of every run satisfies the invariant: bytes and rows agree,
      mailbox and settlements never overlap, leases are whole, quotas hold. */
  lemma {:induction false} InvAt(env: Env, t: seq<Entry>, k: nat)
    requires IsTrace(env, t) && k < |t|
    ensures Inv(env, t[k].before) && Inv(env, t[k].after)
    decreases k
  {
    if k == 0 {
      EmptyInv(env);
    } else {
      InvAt(env, t, k - 1);
      assert LinkAt(t, k);
    }
    assert ValidAt(env, t, k);
    StepPreserves(env, t[k]);
  }

  lemma StepPreserves(env: Env, e: Entry)
    requires IsStep(env, e) && Inv(env, e.before)
    ensures Inv(env, e.after)
  {
    StepKeepsInv(env, e.before, e.op, e.now);
  }

  /** What the theorems below need of the invariant, packet by packet. */
  lemma PlainAt(env: Env, t: seq<Entry>, k: nat)
    requires IsTrace(env, t) && k < |t|
    ensures IsStep(env, t[k]) && Disjoint(t[k].before)
    ensures forall id :: id in t[k].before.mailbox ==> WholeLease(t[k].before.mailbox[id])
  {
    hide IsStep;
    InvAt(env, t, k);
    assert ValidAt(env, t, k);
    InvIsPlain(env, t[k].before);
  }

  lemma InvIsPlain(env: Env, s: Store)
    requires Inv(env, s)
    ensures Disjoint(s) && forall id :: id in s.mailbox ==> WholeLease(s.mailbox[id])
  {
    forall id | id in s.mailbox ensures WholeLease(s.mailbox[id]) {
      assert RowOk(env, s.allow, id, s.mailbox[id]);
    }
  }

  /** Quotas: in every reachable state no destination and no uploader has more rows
      or more bytes in the mailbox than its limits, and no owner more relay
      reservations, of which there is one per peer. */
  lemma QuotasHold(env: Env, t: seq<Entry>, k: nat, node: string)
    requires IsTrace(env, t) && k < |t|
    ensures var m, limits := t[k].after.mailbox, env.limits;
      && |ForDestination(m, node)| <= limits.maxPacketsPerDestination
      && SumOver(Sizes(m), ForDestination(m, node)) <= limits.maxBytesPerDestination
      && |FromUploader(m, node)| <= limits.maxPacketsPerUploader
      && SumOver(Sizes(m), FromUploader(m, node)) <= limits.maxBytesPerUploader
    ensures |RelaysOf(t[k].after.relays, node)| <= env.limits.maxRelaysPerNode
    ensures forall peer :: |RelaysBetween(t[k].after.relays, node, peer)| <= 1
  {
    InvAt(env, t, k);
    assert QuotaOk(env.limits, t[k].after.mailbox, node);
    forall peer ensures |RelaysBetween(t[k].after.relays, node, peer)| <= 1 {
      PairIsSingle(t[k].after.relays, node, peer);
    }
  }

  lemma PairIsSingle(relays: map<string, Reservation>, owner: string, peer: string)
    requires PairsUnique(relays)
    ensures |RelaysBetween(relays, owner, peer)| <= 1
  {
    var ids := RelaysBetween(relays, owner, peer);
    if a :| a in ids {
      assert ids == {a};
    }
  }

  /** Leases are whole: in every reachable state a row has both a token hash and a
      deadline or neither. */
  lemma LeasesAreWhole(env: Env, t: seq<Entry>, k: nat, id: string)
    requires IsTrace(env, t) && k < |t| && id in t[k].after.mailbox
    ensures t[k].after.mailbox[id].tokenHash.Some? <==> t[k].after.mailbox[id].claimUntil.Some?
  {
    InvAt(env, t, k);
    assert RowOk(env, t[k].after.allow, id, t[k].after.mailbox[id]);
  }

  // ----- Custody -----

  /** The hub holds the packet: as mail, or as the record of its settlement. */
  ghost predicate Holds(env: Env, s: Store, id: string, raw: Bytes, expires: int) {
    InMail(s, id, raw, expires) || IsSettled(env, s, id, raw, expires)
  }

  ghost predicate InMail(s: Store, id: string, raw: Bytes, expires: int) {
    id in s.mailbox && s.mailbox[id].raw == raw && s.mailbox[id].expires == expires
  }

  ghost predicate IsSettled(env: Env, s: Store, id: string, raw: Bytes, expires: int) {
    id in s.settlements && s.settlements[id].rawSha256 == env.crypto.sha256(raw) && s.settlements[id].expires == expires
  }

  lemma HoldsStep(env: Env, e: Entry, id: string, raw: Bytes, expires: int)
    requires IsStep(env, e) && Disjoint(e.before)
    requires forall k :: k in e.before.mailbox ==> WholeLease(e.before.mailbox[k])
    requires Holds(env, e.before, id, raw, expires) && e.now < expires
    ensures Holds(env, e.after, id, raw, expires)
    ensures IsSettled(env, e.before, id, raw, expires) ==> IsSettled(env, e.after, id, raw, expires)
  {
    if IsSettled(env, e.before, id, raw, expires) {
      SettledStep(env, e, id);
    } else if Settles(e, id) {
      MailSettled(env, e, id);
    } else if Claims(e, id) {
      MailClaimed(env, e, id);
    } else {
      MailKept(env, e, id);
    }
  }

  /** Until its expiry a packet that the hub holds stays held, and once settled
      it stays settled. */
  lemma {:induction false} HoldsUntil(env: Env, t: seq<Entry>, i: nat, j: nat, id: string, raw: Bytes, expires: int)
    requires IsTrace(env, t) && i <= j < |t|
    requires Holds(env, t[i].before, id, raw, expires)
    requires forall k :: i <= k < j ==> t[k].now < expires
    ensures Holds(env, t[j].before, id, raw, expires)
    ensures IsSettled(env, t[i].before, id, raw, expires) ==> IsSettled(env, t[j].before, id, raw, expires)
    decreases j
  {
    hide IsStep;
    if i == j {
    } else {
      HoldsUntil(env, t, i, j - 1, id, raw, expires);
      PlainAt(env, t, j - 1);
      assert LinkAt(t, j);
      HoldsStep(env, t[j - 1], id, raw, expires);
    }
  }

  /** What a storing submission says about its bytes, and leaves behind. */
  lemma StoreSpec(env: Env, t: seq<Entry>, i: nat, raw: Bytes)
    requires IsTrace(env, t) && i < |t| && Stores(t[i], raw)
    ensures env.wire.unpackOuter(raw).Some?
    ensures var x := env.wire.unpackOuter(raw).value;
      && t[i].now < x.exp
      && InMail(t[i].after, x.id, raw, x.exp)
      && !Holds(env, t[i].before, x.id, raw, x.exp)
  {
    hide IsStep;
    PlainAt(env, t, i);
    StoreStep(env, t[i], raw);
  }

  /** Exactly-once custody, part one: with a non-decreasing clock no byte string
      is stored twice. */
  lemma StoredAtMostOnce(env: Env, t: seq<Entry>, i: nat, j: nat, raw: Bytes)
    requires IsTrace(env, t) && Monotone(t) && i < j < |t|
    requires Stores(t[i], raw)
    ensures !Stores(t[j], raw)
  {
    hide IsStep;
    if Stores(t[j], raw) {
      StoreSpec(env, t, i, raw);
      StoreSpec(env, t, j, raw);
      var x := env.wire.unpackOuter(raw).value;
      assert LinkAt(t, i + 1);
      HoldsUntil(env, t, i + 1, j, x.id, raw, x.exp);
    }
  }

  /** Resubmission is harmless: a committed `submit` that stores nothing found the
      packet held already, under the expiry it reports, and adds nothing. */
  lemma ResubmissionIsHarmless(env: Env, t: seq<Entry>, n: nat)
    requires IsTrace(env, t) && n < |t| && Commits(t[n]) && t[n].op.action.Submit?
    requires !Stores(t[n], t[n].op.action.raw)
    ensures var raw := t[n].op.action.raw;
      && env.wire.unpackOuter(raw).Some? && t[n].answer.value.Receipt?
      && Holds(env, t[n].before, env.wire.unpackOuter(raw).value.id, raw, t[n].answer.value.expiresMs)
    ensures t[n].after.mailbox.Keys <= t[n].before.mailbox.Keys
    ensures t[n].after.settlements.Keys <= t[n].before.settlements.Keys
  {
    hide IsStep;
    assert ValidAt(env, t, n);
    ResubmitStep(env, t[n]);
    CommitSpec(env, t[n]);
  }

  /** What a settling step takes out of the mailbox, and on whose authority. */
  lemma SettlesSpec(env: Env, t: seq<Entry>, n: nat, id: string)
    requires IsTrace(env, t) && n < |t| && Settles(t[n], id)
    ensures id in t[n].before.mailbox && t[n].now < t[n].before.mailbox[id].expires
    ensures id !in t[n].before.settlements && id !in t[n].after.mailbox
    ensures IsSettled(env, t[n].after, id, t[n].before.mailbox[id].raw, t[n].before.mailbox[id].expires)
    ensures t[n].after.settlements[id].proof == ToDict(t[n].op.action.proof)
    ensures t[n].after.settlements[id].uploader == t[n].before.mailbox[id].uploader
    ensures t[n].after.settlements[id].acknowledgedMs == 0
    ensures Caller(t[n]) == t[n].before.mailbox[id].destination
    ensures HoldsLease(env, t[n].before.mailbox[id], t[n].op.action.token, t[n].now)
    ensures IsHexId(id)
  {
    hide IsStep;
    PlainAt(env, t, n);
    SettleNeeds(env, t[n], id);
    MailSettled(env, t[n], id);
  }

  /** Exactly-once custody, part two: any two successful settles took different
      bytes out of the mailbox. */
  lemma SettledAtMostOnce(env: Env, t: seq<Entry>, i: nat, j: nat, id1: string, id2: string)
    requires IsTrace(env, t) && Monotone(t) && i < j < |t|
    requires Settles(t[i], id1) && Settles(t[j], id2)
    ensures id1 in t[i].before.mailbox && id2 in t[j].before.mailbox
    ensures t[i].before.mailbox[id1].raw != t[j].before.mailbox[id2].raw
  {
    hide IsStep;
    SettlesSpec(env, t, i, id1);
    SettlesSpec(env, t, j, id2);
    var raw, expires := t[i].before.mailbox[id1].raw, t[i].before.mailbox[id1].expires;
    if t[j].before.mailbox[id2].raw == raw {
      SameBytesSameIdentity(env, t, i, j, id1, id2);
      assert LinkAt(t, i + 1);
      HoldsUntil(env, t, i + 1, j, id1, raw, expires);
    }
  }

  /** The bytes of a packet fix its id and its expiry. */
  lemma SameBytesSameIdentity(env: Env, t: seq<Entry>, i: nat, j: nat, id1: string, id2: string)
    requires IsTrace(env, t) && i < |t| && j < |t|
    requires id1 in t[i].before.mailbox && id2 in t[j].before.mailbox
    requires t[i].before.mailbox[id1].raw == t[j].before.mailbox[id2].raw
    ensures id1 == id2
    ensures t[i].before.mailbox[id1].expires == t[j].before.mailbox[id2].expires
  {
    InvAt(env, t, i);
    InvAt(env, t, j);
    assert RowOk(env, t[i].before.allow, id1, t[i].before.mailbox[id1]);
    assert RowOk(env, t[j].before.allow, id2, t[j].before.mailbox[id2]);
  }

  /** Conservation: while the clock stays below its expiry, every stored packet is
      in exactly one of the mailbox and the settlements. */
  lemma CustodyIsConserved(env: Env, t: seq<Entry>, i: nat, j: nat, raw: Bytes)
    requires IsTrace(env, t) && i < j < |t| && Stores(t[i], raw)
    requires env.wire.unpackOuter(raw).Some? ==> forall k :: i < k < j ==> t[k].now < env.wire.unpackOuter(raw).value.exp
    ensures env.wire.unpackOuter(raw).Some?
    ensures var s, x := t[j].before, env.wire.unpackOuter(raw).value;
      && (x.id in s.mailbox <==> x.id !in s.settlements)
      && (x.id in s.mailbox ==> s.mailbox[x.id].raw == raw)
      && (x.id in s.settlements ==> s.settlements[x.id].rawSha256 == env.crypto.sha256(raw))
  {
    hide IsStep;
    StoreSpec(env, t, i, raw);
    var x := env.wire.unpackOuter(raw).value;
    assert LinkAt(t, i + 1);
    HoldsUntil(env, t, i + 1, j, x.id, raw, x.exp);
    PlainAt(env, t, j);
  }

  /** The conflict clause of the settlement insert never fires: the row is new,
      and it keeps the proof that was presented. */
  lemma SettleNeverConflicts(env: Env, t: seq<Entry>, n: nat, id: string)
    requires IsTrace(env, t) && n < |t| && Settles(t[n], id)
    ensures id !in t[n].before.settlements && id in t[n].after.settlements
    ensures FromDict(t[n].after.settlements[id].proof) == Ok(t[n].op.action.proof)
  {
    hide IsStep;
    SettlesSpec(env, t, n, id);
    DictRoundTrip(t[n].op.action.proof);
  }

  // ----- Leases -----

  /** The lease that a claim takes out, on a packet without a live one. */
  lemma ClaimsSpec(env: Env, t: seq<Entry>, n: nat, id: string)
    requires IsTrace(env, t) && n < |t| && Claims(t[n], id)
    ensures id in t[n].before.mailbox && t[n].now < t[n].before.mailbox[id].expires && id !in t[n].before.settlements
    ensures Caller(t[n]) == t[n].before.mailbox[id].destination
    ensures !LiveLease(t[n].before.mailbox[id], t[n].now)
    ensures id in t[n].after.mailbox && t[n].op.action.leaseMs > 0
    ensures t[n].after.mailbox[id]
            == LeaseRow(env, Custodied(t[n].before.mailbox[id]), t[n].op.action.mint(id), t[n].now + t[n].op.action.leaseMs)
  {
    hide IsStep;
    PlainAt(env, t, n);
    ClaimNeeds(env, t[n], id);
    MailClaimed(env, t[n], id);
  }

  /** A live lease is left alone by every step but a settlement under it. */
  lemma {:induction false} LeaseLastsUntil(env: Env, t: seq<Entry>, i: nat, j: nat, id: string, row: MailRow)
    requires IsTrace(env, t) && i <= j < |t|
    requires id in t[i].before.mailbox && t[i].before.mailbox[id] == row
    requires row.tokenHash.Some? && row.claimUntil.Some?
    requires forall k :: i <= k < j ==> t[k].now < row.claimUntil.value && t[k].now < row.expires && !Settles(t[k], id)
    ensures id in t[j].before.mailbox && t[j].before.mailbox[id] == row
    decreases j
  {
    hide IsStep;
    if i == j {
    } else {
      LeaseLastsUntil(env, t, i, j - 1, id, row);
      assert LinkAt(t, j);
      PlainAt(env, t, j - 1);
      if Claims(t[j - 1], id) {
        MailClaimed(env, t[j - 1], id);
      } else {
        MailKept(env, t[j - 1], id);
      }
    }
  }

  /** Leases are exclusive: of two claims that return the same packet bytes, the
      later comes no earlier than the end of the earlier lease. */
  lemma ClaimsNeverOverlap(env: Env, t: seq<Entry>, i: nat, j: nat, id: string)
    requires IsTrace(env, t) && Monotone(t) && i < j < |t|
    requires Claims(t[i], id) && Claims(t[j], id)
    ensures id in t[i].before.mailbox && id in t[j].before.mailbox
    ensures t[i].before.mailbox[id].raw == t[j].before.mailbox[id].raw ==>
            t[i].now + t[i].op.action.leaseMs <= t[j].now
  {
    hide IsStep;
    ClaimsSpec(env, t, i, id);
    ClaimsSpec(env, t, j, id);
    var until := t[i].now + t[i].op.action.leaseMs;
    if t[i].before.mailbox[id].raw == t[j].before.mailbox[id].raw && t[j].now < until {
      SameBytesSameIdentity(env, t, i, j, id, id);
      assert LinkAt(t, i + 1);
      var row := t[i + 1].before.mailbox[id];
      if k :| i < k < j && Settles(t[k], id) {
        SettlementBlocksClaim(env, t, i + 1, k, j, id, row.raw, row.expires);
      } else {
        LeaseLastsUntil(env, t, i + 1, j, id, row);
      }
    }
  }

  lemma SettlementBlocksClaim(env: Env, t: seq<Entry>, i: nat, k: nat, j: nat, id: string, raw: Bytes, expires: int)
    requires IsTrace(env, t) && i <= k < j < |t|
    requires Holds(env, t[i].before, id, raw, expires)
    requires forall m :: i <= m <= j ==> t[m].now < expires
    requires Settles(t[k], id)
    ensures !Claims(t[j], id)
  {
    hide IsStep;
    HoldsUntil(env, t, i, k, id, raw, expires);
    SettlesSpec(env, t, k, id);
    assert LinkAt(t, k + 1);
    HoldsUntil(env, t, k + 1, j, id, raw, expires);
    if Claims(t[j], id) {
      ClaimsSpec(env, t, j, id);
    }
  }

  /** The claim at event `i` issued the lease that `row` carries at event `n`, and
      no claim of the packet came in between. */
  ghost predicate IssuedAt(env: Env, t: seq<Entry>, i: nat, n: nat, id: string, row: MailRow)
    requires i < n <= |t|
  {
    && Claims(t[i], id)
    && row.destination == Caller(t[i])
    && row.tokenHash == Some(TokenHash(env, t[i].op.action.mint(id)))
    && row.claimUntil == Some(t[i].now + t[i].op.action.leaseMs)
    && forall k :: i < k < n ==> !Claims(t[k], id)
  }

  lemma LeaseStepAt(env: Env, t: seq<Entry>, k: nat, id: string)
    requires IsTrace(env, t) && k < |t|
    requires id in t[k].after.mailbox && t[k].after.mailbox[id].tokenHash.Some?
    ensures if Claims(t[k], id) then
        && t[k].after.mailbox[id].tokenHash == Some(TokenHash(env, t[k].op.action.mint(id)))
        && t[k].after.mailbox[id].claimUntil == Some(t[k].now + t[k].op.action.leaseMs)
        && t[k].after.mailbox[id].destination == Caller(t[k])
      else id in t[k].before.mailbox && t[k].before.mailbox[id] == t[k].after.mailbox[id]
  {
    hide IsStep;
    PlainAt(env, t, k);
    LeaseStep(env, t[k], id);
  }

  /** Every lease in the mailbox was issued by the latest claim of its packet. */
  lemma {:induction false} LeaseHasOrigin(env: Env, t: seq<Entry>, n: nat, id: string) returns (i: nat)
    requires IsTrace(env, t) && n < |t|
    requires id in t[n].before.mailbox && t[n].before.mailbox[id].tokenHash.Some?
    ensures i < n && IssuedAt(env, t, i, n, id, t[n].before.mailbox[id])
    decreases n
  {
    hide IsStep;
    assert n > 0;
    assert LinkAt(t, n);
    LeaseStepAt(env, t, n - 1, id);
    if Claims(t[n - 1], id) {
      i := n - 1;
    } else {
      i := LeaseHasOrigin(env, t, n - 1, id);
    }
  }

  /** Fencing: a successful settle comes from the destination and used the token
      of the latest claim of the packet, strictly before that claim's deadline.
      An expired or superseded token never settles. */
  lemma SettleUsesLatestToken(env: Env, t: seq<Entry>, n: nat, id: string) returns (i: nat)
    requires IsTrace(env, t) && n < |t| && Settles(t[n], id)
    ensures i < n && Claims(t[i], id)
    ensures forall k :: i < k < n ==> !Claims(t[k], id)
    ensures TokenHash(env, t[n].op.action.token) == TokenHash(env, t[i].op.action.mint(id))
    ensures t[n].now < t[i].now + t[i].op.action.leaseMs
    ensures Caller(t[n]) == Caller(t[i])
  {
    hide IsStep;
    SettlesSpec(env, t, n, id);
    i := LeaseHasOrigin(env, t, n, id);
  }

  /** A packet id with anything but lowercase hexadecimal digits, which a packet
      header may carry, can never be settled. */
  lemma OnlyHexIdsSettle(env: Env, t: seq<Entry>, n: nat, id: string)
    requires IsTrace(env, t) && n < |t| && !IsHexId(id)
    ensures !Settles(t[n], id)
  {
    if Settles(t[n], id) {
      SettlesSpec(env, t, n, id);
    }
  }

  // ----- A live claim cannot be spoiled -----

  /** The request will be accepted: it verifies, its node is allowed, its nonce is unused. */
  ghost predicate Fresh(env: Env, s: Store, auth: Auth, body: Bytes, now: int) {
    var r := auth.request;
    && r.Verifies(env.crypto, auth.descriptor, body, now)
    && IsAllowed(s, r.nodeId)
    && (r.nodeId, r.nonce) !in Purge(s, now).nonces
  }

  lemma FreshBegins(env: Env, s: Store, auth: Auth, body: Bytes, now: int)
    ensures Begin(env, s, auth, body, now).Ok? <==> Fresh(env, s, auth, body, now)
  {
  }

  /** Under a live lease, a settle with the leased token and an issued proof succeeds. */
  lemma SettleSucceeds(env: Env, e: Entry, row: MailRow, sign: Fields -> Bytes, settledMs: int)
    requires IsStep(env, e) && e.op.Call? && e.op.action.Settle? && IsAscii(e.op.action.token)
    requires var id := e.op.action.packetId; id in e.before.mailbox && e.before.mailbox[id] == row
    requires HoldsLease(env, row, e.op.action.token, e.now) && e.now < row.expires
    requires Caller(e) == row.destination && Fresh(env, e.before, e.op.auth, e.op.action.Body(), e.now)
    requires Issue(env.crypto, sign, row.destination, e.op.auth.descriptor.signPublic, e.op.action.packetId, row.raw,
                   row.uploader, row.expires, settledMs) == Ok(e.op.action.proof)
    requires settledMs <= e.now + REQUEST_SKEW_MS
    ensures Settles(e, e.op.action.packetId)
  {
    var auth, a := e.op.auth, e.op.action;
    IssuedIsAccepted(env, a.proof, row, sign, e.op.auth.descriptor.signPublic, a.packetId, settledMs, e.now);
    hide Issue, Request.Verifies, ProofMatches, DestinationSettlement.Verifies;
    BegunKeepsRow(env, e, row);
    SettleAccepts(env, Begun(env, e), auth, a, e.now);
    SettleCommits(env, e);
  }

  lemma BegunKeepsRow(env: Env, e: Entry, row: MailRow)
    requires e.op.Call? && e.op.action.Settle? && Fresh(env, e.before, e.op.auth, e.op.action.Body(), e.now)
    requires e.op.action.packetId in e.before.mailbox && e.before.mailbox[e.op.action.packetId] == row
    requires LiveLease(row, e.now) && e.now < row.expires
    ensures e.op.action.packetId in Begun(env, e).mailbox && Begun(env, e).mailbox[e.op.action.packetId] == row
    ensures Begin(env, e.before, e.op.auth, e.op.action.Body(), e.now) == Ok(Begun(env, e))
  {
    FreshBegins(env, e.before, e.op.auth, e.op.action.Body(), e.now);
    hide Request.Verifies;
  }

  lemma SettleCommits(env: Env, e: Entry)
    requires IsStep(env, e) && e.op.Call? && e.op.action.Settle? && IsAscii(e.op.action.token)
    requires Begin(env, e.before, e.op.auth, e.op.action.Body(), e.now) == Ok(Begun(env, e))
    requires var r := DoSettle(env, Begun(env, e), e.op.auth, e.op.action, e.now); r.Ok? && r.value.1 == Flag(true)
    ensures Settles(e, e.op.action.packetId)
  {
    hide DoSettle, Begin, Begun;
  }

  /** A proof issued for a row verifies and matches the row while it lives. */
  lemma IssuedIsAccepted(env: Env, proof: DestinationSettlement, row: MailRow, sign: Fields -> Bytes, signPublic: Bytes,
                         packetId: string, settledMs: int, now: int)
    requires Issue(env.crypto, sign, row.destination, signPublic, packetId, row.raw, row.uploader, row.expires, settledMs) == Ok(proof)
    requires settledMs <= now + REQUEST_SKEW_MS && now < row.expires
    ensures ProofMatches(env, proof, packetId, row.destination, row)
    ensures proof.Verifies(env.crypto, signPublic, now)
  {
  }

  lemma SettleAccepts(env: Env, s: Store, auth: Auth, a: Action, now: int)
    requires a.Settle? && a.packetId in s.mailbox
    requires s.mailbox[a.packetId].destination == auth.request.nodeId && HoldsLease(env, s.mailbox[a.packetId], a.token, now)
    requires a.proof.Verifies(env.crypto, auth.descriptor.signPublic, now)
    requires ProofMatches(env, a.proof, a.packetId, auth.request.nodeId, s.mailbox[a.packetId])
    ensures DoSettle(env, s, auth, a, now).Ok? && DoSettle(env, s, auth, a, now).value.1 == Flag(true)
  {
  }

  /** The ticket for a claimed packet tells the row that the claim left behind. */
  lemma TicketTellsRow(env: Env, t: seq<Entry>, i: nat, m: nat)
    requires IsTrace(env, t) && i < |t| && t[i].op.Call? && t[i].answer.Ok? && t[i].answer.value.Claimed?
    requires m < |t[i].answer.value.batch|
    ensures var k := t[i].answer.value.batch[m];
      && Claims(t[i], k.packetId) && k.packetId in t[i].after.mailbox
      && var row := t[i].after.mailbox[k.packetId];
         && row.raw == k.raw && row.uploader == k.uploaderId && row.expires == k.expiresMs && row.destination == Caller(t[i])
         && row.depth == k.depth && row.tokenHash == Some(TokenHash(env, k.claimToken)) && row.claimUntil == Some(k.claimUntilMs)
  {
    hide IsStep;
    ClaimAnswersAt(env, t, i, m);
    var k := t[i].answer.value.batch[m];
    assert Claims(t[i], k.packetId);
    ClaimsSpec(env, t, i, k.packetId);
  }

  lemma ClaimAnswersAt(env: Env, t: seq<Entry>, i: nat, m: nat)
    requires IsTrace(env, t) && i < |t| && t[i].op.Call? && t[i].answer.Ok? && t[i].answer.value.Claimed?
    requires m < |t[i].answer.value.batch|
    ensures t[i].op.action.Claim?
    ensures var k := t[i].answer.value.batch[m];
      && k.claimToken == t[i].op.action.mint(k.packetId) && k.claimUntilMs == t[i].now + t[i].op.action.leaseMs
      && InMail(t[i].before, k.packetId, k.raw, k.expiresMs) && t[i].before.mailbox[k.packetId].uploader == k.uploaderId
      && t[i].before.mailbox[k.packetId].depth == k.depth
  {
    hide IsStep;
    assert ValidAt(env, t, i);
    CommitSpec(env, t[i]);
    ClaimAnswers(env, Begun(env, t[i]), t[i].op.auth, t[i].op.action, t[i].now, m);
  }

  lemma ClaimAnswers(env: Env, s: Store, auth: Auth, a: Action, now: int, m: nat)
    requires Precheck(env, auth.request.nodeId, a, now).None? && Act(env, s, auth, a, now).Ok?
    requires Act(env, s, auth, a, now).value.1.Claimed? && m < |Act(env, s, auth, a, now).value.1.batch|
    ensures a.Claim?
    ensures var k := Act(env, s, auth, a, now).value.1.batch[m];
      && k.packetId in s.mailbox && k == Ticket(s.mailbox, k.packetId, a.mint(k.packetId), now + a.leaseMs)
  {
  }

  /** If `claim` returned a packet, then at any later moment before the end of its
      lease and before its expiry -- whatever steps anyone took in between, short
      of settling it -- the claimant's settle with the ticket's token and a proof
      issued for the ticket succeeds. */
  lemma LiveClaimCannotBeSpoiled(env: Env, t: seq<Entry>, i: nat, m: nat, n: nat, sign: Fields -> Bytes, settledMs: int)
    requires IsTrace(env, t) && i < n < |t|
    requires t[i].op.Call? && t[i].answer.Ok? && t[i].answer.value.Claimed? && m < |t[i].answer.value.batch|
    requires t[n].op.Call? && t[n].op.action.Settle?
    requires var ticket := t[i].answer.value.batch[m];
      && (forall k :: i < k <= n ==> t[k].now < ticket.claimUntilMs && t[k].now < ticket.expiresMs)
      && (forall k :: i < k < n ==> !Settles(t[k], ticket.packetId))
      && t[n].op.action.packetId == ticket.packetId
      && t[n].op.action.token == ticket.claimToken && IsAscii(ticket.claimToken)
      && Issue(env.crypto, sign, Caller(t[i]), t[n].op.auth.descriptor.signPublic, ticket.packetId, ticket.raw,
               ticket.uploaderId, ticket.expiresMs, settledMs) == Ok(t[n].op.action.proof)
    requires settledMs <= t[n].now + REQUEST_SKEW_MS
    requires Caller(t[n]) == Caller(t[i])
    requires Fresh(env, t[n].before, t[n].op.auth, t[n].op.action.Body(), t[n].now)
    ensures Settles(t[n], t[n].op.action.packetId)
  {
    hide IsStep;
    TicketTellsRow(env, t, i, m);
    var id := t[n].op.action.packetId;
    var row := t[i].after.mailbox[id];
    assert LinkAt(t, i + 1);
    LeaseLastsUntil(env, t, i + 1, n, id, row);
    assert ValidAt(env, t, n);
    SettleSucceeds(env, t[n], row, sign, settledMs);
  }

  // ----- Replay -----

  /** An authenticated request committed: node, nonce and issue time. */
  ghost predicate CommitsRequest(e: Entry, nodeId: string, nonce: string, issuedMs: int) {
    && Commits(e)
    && e.op.auth.request.nodeId == nodeId && e.op.auth.request.nonce == nonce && e.op.auth.request.issuedMs == issuedMs
  }

  lemma {:induction false} NonceKeptUntil(env: Env, t: seq<Entry>, i: nat, j: nat, key: (string, string), issuedMs: int)
    requires IsTrace(env, t) && i <= j < |t|
    requires key in t[i].before.nonces && t[i].before.nonces[key] == issuedMs
    requires forall k :: i <= k < j ==> t[k].now - NONCE_RETENTION_MS <= issuedMs
    ensures key in t[j].before.nonces && t[j].before.nonces[key] == issuedMs
    decreases j
  {
    hide IsStep;
    if i == j {
    } else {
      NonceKeptUntil(env, t, i, j - 1, key, issuedMs);
      assert LinkAt(t, j) && ValidAt(env, t, j - 1);
      NonceStep(env, t[j - 1], key);
    }
  }

  /** Anti-replay: if the clock at the second presentation is at most retention
      minus skew (five minutes) below any reading in between, a signed request
      does not commit twice -- across any mix of operations, including removing
      and re-admitting its node. */
  lemma NoReplay(env: Env, t: seq<Entry>, i: nat, j: nat, nodeId: string, nonce: string, issuedMs: int)
    requires IsTrace(env, t) && i < j < |t|
    requires CommitsRequest(t[i], nodeId, nonce, issuedMs)
    requires forall k :: i < k < j ==> t[k].now - t[j].now <= NONCE_RETENTION_MS - REQUEST_SKEW_MS
    ensures !CommitsRequest(t[j], nodeId, nonce, issuedMs)
  {
    hide IsStep;
    if CommitsRequest(t[j], nodeId, nonce, issuedMs) {
      assert LinkAt(t, i + 1);
      CommitRecordsNonceAt(env, t, i);
      CommitRecordsNonceAt(env, t, j);
      NonceKeptUntil(env, t, i + 1, j, (nodeId, nonce), issuedMs);
    }
  }

  lemma CommitRecordsNonceAt(env: Env, t: seq<Entry>, n: nat)
    requires IsTrace(env, t) && n < |t| && Commits(t[n])
    ensures var r, key := t[n].op.auth.request, (t[n].op.auth.request.nodeId, t[n].op.auth.request.nonce);
      && key in t[n].after.nonces && t[n].after.nonces[key] == r.issuedMs
      && (key in t[n].before.nonces ==> t[n].before.nonces[key] < t[n].now - NONCE_RETENTION_MS)
      && -REQUEST_SKEW_MS <= t[n].now - r.issuedMs <= REQUEST_SKEW_MS
  {
    hide IsStep;
    assert ValidAt(env, t, n);
    CommitRecordsNonce(env, t[n]);
  }

  /** The bound is tight: one millisecond more, and any request that verifies
      both at `now` and at the end of its skew window can commit twice. */
  lemma ReplayBeyondTheBound(env: Env, auth: Auth, body: Bytes, now: int) returns (t: seq<Entry>)
    requires env.limits.Valid()
    requires auth.request.Verifies(env.crypto, auth.descriptor, body, now)
    requires auth.request.Verifies(env.crypto, auth.descriptor, body, auth.request.issuedMs + REQUEST_SKEW_MS)
    ensures |t| == 4 && IsTrace(env, t)
    ensures t[2].now - t[3].now == NONCE_RETENTION_MS - REQUEST_SKEW_MS + 1
    ensures t[0].now == t[1].now == now && t[3].now == auth.request.issuedMs + REQUEST_SKEW_MS
    ensures CommitsRequest(t[1], auth.request.nodeId, auth.request.nonce, auth.request.issuedMs)
    ensures CommitsRequest(t[3], auth.request.nodeId, auth.request.nonce, auth.request.issuedMs)
  {
    var r := auth.request;
    var call := Call(auth, Authenticate(body));
    var again := r.issuedMs + REQUEST_SKEW_MS;
    var late := again + (NONCE_RETENTION_MS - REQUEST_SKEW_MS) + 1;
    var e0 := Next(env, EMPTY, AllowNode(r.nodeId), now);
    assert IsAllowed(e0.after, r.nodeId) && e0.after.nonces == map[];
    var e1 := Next(env, e0.after, call, now);
    AuthenticateCommits(env, e1);
    var e2 := Next(env, e1.after, PurgeNow, late);
    assert (r.nodeId, r.nonce) !in e2.after.nonces && IsAllowed(e2.after, r.nodeId);
    var e3 := Next(env, e2.after, call, again);
    AuthenticateCommits(env, e3);
    t := [e0, e1, e2, e3];
    forall k | 0 <= k < 4 ensures ValidAt(env, t, k) {
    }
    forall k | 0 < k < 4 ensures LinkAt(t, k) {
    }
  }

  /** No reading of the clock is more than `fall` below an earlier one. */
  ghost predicate FallsWithin(t: seq<Entry>, fall: int) {
    forall i, j :: 0 <= i < j < |t| ==> t[i].now - t[j].now <= fall
  }

  /** Two commits of the run carry one node, nonce and issue time. */
  ghost predicate Replays(t: seq<Entry>) {
    exists i, j, nodeId, nonce, issuedMs ::
      0 <= i < j < |t| && CommitsRequest(t[i], nodeId, nonce, issuedMs) && CommitsRequest(t[j], nodeId, nonce, issuedMs)
  }

  /** How far the clock may fall: no run in which it falls by at most `fall` commits
      a request twice, exactly when `fall` is at most retention minus skew.  (Some
      request must verify up to the end of its skew window.) */
  lemma ReplayBoundIff(env: Env, auth: Auth, body: Bytes, fall: int)
    requires env.limits.Valid()
    requires auth.request.Verifies(env.crypto, auth.descriptor, body, auth.request.issuedMs)
    requires auth.request.Verifies(env.crypto, auth.descriptor, body, auth.request.issuedMs + REQUEST_SKEW_MS)
    ensures (forall t :: IsTrace(env, t) && FallsWithin(t, fall) ==> !Replays(t)) <==> fall <= NONCE_RETENTION_MS - REQUEST_SKEW_MS
  {
    hide IsTrace, CommitsRequest, Request.Verifies;
    if fall <= NONCE_RETENTION_MS - REQUEST_SKEW_MS {
      forall t | IsTrace(env, t) && FallsWithin(t, fall) ensures !Replays(t) {
        if i, j, nodeId, nonce, issuedMs :| 0 <= i < j < |t| && CommitsRequest(t[i], nodeId, nonce, issuedMs)
                                            && CommitsRequest(t[j], nodeId, nonce, issuedMs)
        {
          NoReplay(env, t, i, j, nodeId, nonce, issuedMs);
        }
      }
    } else {
      var t := ReplayBeyondTheBound(env, auth, body, auth.request.issuedMs);
      assert FallsWithin(t, fall) && Replays(t);
    }
  }

  lemma AuthenticateCommits(env: Env, e: Entry)
    requires IsStep(env, e) && e.op.Call? && e.op.action.Authenticate?
    requires Fresh(env, e.before, e.op.auth, e.op.action.body, e.now)
    ensures Commits(e) && e.after == Begun(env, e)
    ensures e.after.allow == e.before.allow
    ensures e.after.nonces
            == Purge(e.before, e.now).nonces[(Caller(e), e.op.auth.request.nonce) := e.op.auth.request.issuedMs]
  {
    FreshBegins(env, e.before, e.op.auth, e.op.action.body, e.now);
  }

  // ----- Settlement proofs and acknowledgements -----

  /** A settlement row was inserted by a settle with exactly the proof it keeps. */
  lemma {:induction false} ProofHasOrigin(env: Env, t: seq<Entry>, n: nat, id: string) returns (i: nat)
    requires IsTrace(env, t) && n < |t| && id in t[n].before.settlements
    ensures i < n && Settles(t[i], id)
    ensures FromDict(t[n].before.settlements[id].proof) == Ok(t[i].op.action.proof)
    decreases n
  {
    hide IsStep;
    assert n > 0;
    assert LinkAt(t, n) && ValidAt(env, t, n - 1);
    if Settles(t[n - 1], id) {
      SettleNeverConflicts(env, t, n - 1, id);
      i := n - 1;
    } else {
      ProofStep(env, t[n - 1], id);
      i := ProofHasOrigin(env, t, n - 1, id);
    }
  }

  /** The rows a `settlements` call reads are among those before it, unexpired. */
  lemma ListingReads(env: Env, e: Entry)
    requires IsStep(env, e) && Commits(e) && e.op.action.Settlements?
    ensures e.op.action.limit >= 0
    ensures var p := Purge(e.before, e.now).settlements;
      var ids := Listed(p, Caller(e), e.op.action.destination, e.op.action.limit);
      var proofs := Traverse(FromDict, StoredProofs(p, ids));
      proofs.Ok? && e.answer.value == Proofs(proofs.value)
  {
    CommitSpec(env, e);
  }

  /** Reading the stored proofs succeeds, and what is read is what the rows record. */
  lemma ListingIsFaithful(env: Env, s: Store, now: int, node: string, destination: Option<string>, limit: int, m: nat)
    requires Inv(env, s) && limit >= 0
    ensures var rows := Purge(s, now).settlements;
      var proofs := Traverse(FromDict, StoredProofs(rows, Listed(rows, node, destination, limit)));
      && proofs.Ok?
      && (m < |proofs.value| ==>
            var p := proofs.value[m];
            && p.packetId in s.settlements && s.settlements[p.packetId].acknowledgedMs == 0
            && FromDict(s.settlements[p.packetId].proof) == Ok(p)
            && p.uploaderId == node && p.ShapeOk() && SignedByDestination(env.crypto, p))
  {
    hide FromDict, DestinationSettlement.ShapeOk, SignedByDestination;
    var rows := Purge(s, now).settlements;
    var ids := Listed(rows, node, destination, limit);
    forall i | 0 <= i < |ids|
      ensures ids[i] in s.settlements && ids[i] in rows && rows[ids[i]] == s.settlements[ids[i]]
      ensures SettledOk(env, s.allow, ids[i], s.settlements[ids[i]])
      ensures ids[i] in Pending(rows, node, destination)
    {
      assert ids[i] in ids;
    }
    TraverseSucceeds(FromDict, StoredProofs(rows, ids));
  }

  /** `settlements` returns exactly what was settled: every proof it returns is,
      field for field, the one some settle of this run presented, for a packet
      the caller uploaded and has not acknowledged. */
  lemma ListedProofsAreOriginal(env: Env, t: seq<Entry>, n: nat, m: nat) returns (i: nat)
    requires IsTrace(env, t) && n < |t| && Commits(t[n]) && t[n].op.action.Settlements?
    requires t[n].answer.value.Proofs? && m < |t[n].answer.value.proofs|
    ensures i < n
    ensures var p := t[n].answer.value.proofs[m];
      && Settles(t[i], p.packetId) && t[i].op.action.proof == p
      && p.uploaderId == Caller(t[n])
      && p.packetId in t[n].before.settlements && t[n].before.settlements[p.packetId].acknowledgedMs == 0
      && p.ShapeOk() && SignedByDestination(env.crypto, p)
  {
    assert ValidAt(env, t, n);
    ListingReads(env, t[n]);
    InvAt(env, t, n);
    hide *;
    ListingIsFaithful(env, t[n].before, t[n].now, Caller(t[n]), t[n].op.action.destination, t[n].op.action.limit, m);
    i := ProofHasOrigin(env, t, n, t[n].answer.value.proofs[m].packetId);
  }

  /** Two descriptors whose different keys, of the proper size, give one node id:
      the hash behind node ids, which is taken over both keys joined, collides. */
  ghost predicate KeysCollide(c: Suite, a: NodeDescriptor, b: NodeDescriptor) {
    && |a.signPublic| == |a.boxPublic| == |b.signPublic| == |b.boxPublic| == 32
    && a.signPublic + a.boxPublic != b.signPublic + b.boxPublic
    && c.nodeId(a.signPublic, a.boxPublic) == c.nodeId(b.signPublic, b.boxPublic)
  }

  lemma JoinedKeysDiffer(sign1: Bytes, box1: Bytes, sign2: Bytes, box2: Bytes)
    requires |sign1| == |sign2| && sign1 != sign2
    ensures sign1 + box1 != sign2 + box2
  {
    assert (sign1 + box1)[..|sign1|] == sign1 && (sign2 + box2)[..|sign2|] == sign2;
  }

  /** A proof that verified under one verified descriptor of its destination does so
      under every other, because the node id fixes both keys. */
  lemma ProofOutlivesDescriptor(c: Suite, p: DestinationSettlement, a: NodeDescriptor, d: NodeDescriptor, settled: int, now: int)
    requires a.Verifies(c, settled) && a.nodeId == p.destinationId && p.Verifies(c, a.signPublic, settled)
    requires d.Verifies(c, now) && d.nodeId == p.destinationId
    requires p.settledMs <= now + REQUEST_SKEW_MS && p.expiresMs > now
    ensures p.Verifies(c, d.signPublic, now) || KeysCollide(c, a, d)
  {
    if a.signPublic != d.signPublic {
      JoinedKeysDiffer(a.signPublic, a.boxPublic, d.signPublic, d.boxPublic);
    }
  }

  /** What `settlements` returns, its receiver can verify: under any verified
      descriptor of the destination, while the settlement lives -- unless that
      descriptor and the one that settle presented collide. */
  lemma ListedProofsVerify(env: Env, t: seq<Entry>, n: nat, m: nat, d: NodeDescriptor, now: int) returns (i: nat)
    requires IsTrace(env, t) && n < |t| && Commits(t[n]) && t[n].op.action.Settlements?
    requires t[n].answer.value.Proofs? && m < |t[n].answer.value.proofs|
    requires var p := t[n].answer.value.proofs[m];
      && d.Verifies(env.crypto, now) && d.nodeId == p.destinationId
      && p.settledMs <= now + REQUEST_SKEW_MS && p.expiresMs > now
    ensures i < n && Settles(t[i], t[n].answer.value.proofs[m].packetId)
    ensures t[i].op.auth.descriptor.Verifies(env.crypto, t[i].now)
    ensures t[n].answer.value.proofs[m].Verifies(env.crypto, d.signPublic, now)
            || KeysCollide(env.crypto, t[i].op.auth.descriptor, d)
  {
    hide IsStep, DestinationSettlement.Verifies, NodeDescriptor.Verifies, SignedByDestination;
    i := ListedProofsAreOriginal(env, t, n, m);
    assert ValidAt(env, t, i);
    SettleVerified(env, t[i], t[n].answer.value.proofs[m].packetId);
    ProofOutlivesDescriptor(env.crypto, t[n].answer.value.proofs[m], t[i].op.auth.descriptor, d, t[i].now, now);
  }

  /** And it returns everything: when the limit admits all pending settlements of
      the caller, each of them is among the proofs. */
  lemma ListingIsComplete(env: Env, t: seq<Entry>, n: nat, id: string)
    requires IsTrace(env, t) && n < |t| && Commits(t[n]) && t[n].op.action.Settlements?
    requires var pending := Pending(Purge(t[n].before, t[n].now).settlements, Caller(t[n]), t[n].op.action.destination);
      id in pending && |pending| <= t[n].op.action.limit
    ensures t[n].answer.value.Proofs?
    ensures exists m :: 0 <= m < |t[n].answer.value.proofs| && t[n].answer.value.proofs[m].packetId == id
  {
    hide IsStep;
    assert ValidAt(env, t, n);
    ListingReads(env, t[n]);
    InvAt(env, t, n);
    PendingIsListed(env, t[n].before, t[n].now, Caller(t[n]), t[n].op.action.destination, t[n].op.action.limit, id);
  }

  lemma PendingIsListed(env: Env, s: Store, now: int, node: string, destination: Option<string>, limit: int, id: string)
    requires Inv(env, s) && limit >= 0
    requires id in Pending(Purge(s, now).settlements, node, destination)
    requires |Pending(Purge(s, now).settlements, node, destination)| <= limit
    ensures var rows := Purge(s, now).settlements;
      var proofs := Traverse(FromDict, StoredProofs(rows, Listed(rows, node, destination, limit)));
      proofs.Ok? && exists m :: 0 <= m < |proofs.value| && proofs.value[m].packetId == id
  {
    hide FromDict, DestinationSettlement.ShapeOk, SignedByDestination;
    var rows := Purge(s, now).settlements;
    var pending := Pending(rows, node, destination);
    var ids := Listed(rows, node, destination, limit);
    SortBySorts(SettledTimes(rows), pending);
    assert id in ids;
    hide Listed, SortBy, QuotasOk, RelaysOk, RowOk;
    forall i | 0 <= i < |ids| ensures ids[i] in rows && SettledOk(env, s.allow, ids[i], rows[ids[i]]) {
      assert ids[i] in ids;
      assert SettledOk(env, s.allow, ids[i], s.settlements[ids[i]]);
    }
    TraverseSucceeds(FromDict, StoredProofs(rows, ids));
    var m :| 0 <= m < |ids| && ids[m] == id;
    assert Traverse(FromDict, StoredProofs(rows, ids)).value[m].packetId == id;
  }

  lemma {:induction false} AcknowledgedUntil(env: Env, t: seq<Entry>, i: nat, j: nat, id: string, row: SettledRow)
    requires IsTrace(env, t) && i <= j < |t|
    requires id in t[i].before.settlements && t[i].before.settlements[id] == row
    requires row.acknowledgedMs != 0
    requires forall k :: i <= k < j ==> t[k].now < row.expires
    ensures id in t[j].before.settlements && t[j].before.settlements[id] == row
    decreases j
  {
    hide IsStep;
    if i == j {
    } else {
      AcknowledgedUntil(env, t, i, j - 1, id, row);
      assert LinkAt(t, j);
      PlainAt(env, t, j - 1);
      SettledStep(env, t[j - 1], id);
    }
  }

  /** What an acknowledging step finds and leaves. */
  lemma AcknowledgesSpec(env: Env, t: seq<Entry>, n: nat, id: string)
    requires IsTrace(env, t) && n < |t| && Acknowledges(t[n], id)
    ensures id in t[n].before.settlements && t[n].now < t[n].before.settlements[id].expires
    ensures t[n].before.settlements[id].acknowledgedMs == 0 && t[n].before.settlements[id].uploader == Caller(t[n])
    ensures id in t[n].after.settlements
    ensures t[n].after.settlements[id] == t[n].before.settlements[id].(acknowledgedMs := t[n].now)
  {
    hide IsStep;
    PlainAt(env, t, n);
    AcknowledgeNeeds(env, t[n], id);
    SettledStep(env, t[n], id);
  }

  /** With a non-zero clock an acknowledgement is accepted once: until the
      settlement expires it is never accepted again, and the settlement is never
      listed again. */
  lemma AcknowledgedOnce(env: Env, t: seq<Entry>, i: nat, j: nat, id: string)
    requires IsTrace(env, t) && i < j < |t|
    requires Acknowledges(t[i], id) && t[i].now != 0
    requires id in t[i].before.settlements
    requires forall k :: i < k <= j ==> t[k].now < t[i].before.settlements[id].expires
    ensures !Acknowledges(t[j], id)
    ensures forall node, destination, limit :: limit >= 0 ==>
      id !in Listed(Purge(t[j].before, t[j].now).settlements, node, destination, limit)
  {
    hide IsStep;
    AcknowledgesSpec(env, t, i, id);
    assert LinkAt(t, i + 1);
    var row := t[i + 1].before.settlements[id];
    AcknowledgedUntil(env, t, i + 1, j, id, row);
    if Acknowledges(t[j], id) {
      AcknowledgesSpec(env, t, j, id);
    }
    var rows := Purge(t[j].before, t[j].now).settlements;
    assert rows[id] == row;
    forall node, destination, limit | limit >= 0 ensures id !in Listed(rows, node, destination, limit) {
      assert id !in Pending(rows, node, destination);
    }
  }

  /** The clock must not read zero: an acknowledgement is accepted a second time
      exactly when the first was stamped with zero. */
  lemma AcknowledgementSticksIff(s: Store, nodeId: string, packetId: string, now: int, later: int)
    requires DoAcknowledge(s, nodeId, packetId, now).Ok? && DoAcknowledge(s, nodeId, packetId, now).value.1 == Flag(true)
    ensures var s' := DoAcknowledge(s, nodeId, packetId, now).value.0;
      && DoAcknowledge(s', nodeId, packetId, later).Ok?
      && DoAcknowledge(s', nodeId, packetId, later).value.1 == Flag(now == 0)
  {
  }
}
