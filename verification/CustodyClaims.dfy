/** What a claim selects from the mailbox, and why claiming and settling drains it,
    except for what cannot be settled. */
module CustodyClaims {
  import opened Basics
  import opened Settlement
  import opened Ordered
  import opened Custody
  import opened CustodyInvariant
  import opened CustodySteps
  import opened CustodyRuns
  import Packet

  // ----- The budgeted selection -----

  ghost predicate Distinct(s: seq<string>) {
    forall i, j :: 0 <= i < j < |s| ==> s[i] != s[j]
  }

  lemma ChosenOfPrefix(size: map<string, int>, rows: seq<string>, used: int, max: Option<int>, p: nat)
    requires forall k :: k in rows ==> k in size
    requires p <= |rows|
    ensures forall k :: k in rows[..p] ==> k in size
  {
    forall k | k in rows[..p] ensures k in size {
      assert k in rows;
    }
  }

  lemma {:induction false} ChosenSize(size: map<string, int>, rows: seq<string>, used: int, max: Option<int>)
    requires forall k :: k in rows ==> k in size
    requires max.Some? ==> used <= max.value
    ensures forall i :: 0 <= i < |Chosen(size, rows, used, max)| ==> Chosen(size, rows, used, max)[i] in size
    ensures max.Some? ==> used + Sum(size, Chosen(size, rows, used, max)) <= max.value
  {
    if rows == [] {
    } else {
      assert rows[0] in rows;
      ChosenOfPrefix(size, rows, used, max, |rows|);
      assert forall k :: k in rows[1..] ==> k in rows;
      if max.Some? && used + size[rows[0]] > max.value {
        ChosenSize(size, rows[1..], used, max);
      } else {
        ChosenSize(size, rows[1..], used + size[rows[0]], max);
        assert Chosen(size, rows, used, max)[1..] == Chosen(size, rows[1..], used + size[rows[0]], max);
      }
    }
  }

  lemma {:induction false} ChosenIsSorted(rank: map<string, int>, size: map<string, int>, rows: seq<string>, used: int, max: Option<int>)
    requires forall k :: k in rows ==> k in size
    requires IsSorted(rank, rows)
    ensures IsSorted(rank, Chosen(size, rows, used, max))
  {
    if rows == [] {
    } else {
      assert rows[0] in rows && forall k :: k in rows[1..] ==> k in rows;
      if max.Some? && used + size[rows[0]] > max.value {
        ChosenIsSorted(rank, size, rows[1..], used, max);
      } else {
        var rest := Chosen(size, rows[1..], used + size[rows[0]], max);
        ChosenIsSorted(rank, size, rows[1..], used + size[rows[0]], max);
        forall j | 0 <= j < |rest| ensures Before(rank, rows[0], rest[j]) {
          assert rest[j] in rest;
          var i :| 0 <= i < |rows[1..]| && rows[1..][i] == rest[j];
          assert rows[i + 1] == rest[j];
        }
      }
    }
  }

  /** The first `q` members of `batch` come before row `p` and the others do not;
      row `p` is in `batch` exactly when the budget still had room for it. */
  ghost predicate TakenIffFits(size: map<string, int>, rows: seq<string>, batch: seq<string>, used: int, max: Option<int>, p: nat, q: nat) {
    && p < |rows| && q <= |batch| && rows[p] in size
    && (forall i :: 0 <= i < |batch| ==> batch[i] in size)
    && (forall i :: 0 <= i < q ==> batch[i] in rows[..p])
    && (forall i :: q <= i < |batch| ==> batch[i] !in rows[..p])
    && (rows[p] in batch <==> max.None? || used + Sum(size, batch[..q]) + size[rows[p]] <= max.value)
  }

  lemma TakenSkipping(size: map<string, int>, rows: seq<string>, batch: seq<string>, used: int, max: Option<int>, p: nat, q: nat)
    requires 0 < p < |rows|
    requires rows[0] !in batch && TakenIffFits(size, rows[1..], batch, used, max, p - 1, q)
    ensures TakenIffFits(size, rows, batch, used, max, p, q)
  {
    assert rows[..p] == [rows[0]] + rows[1..][..p - 1];
    forall i | q <= i < |batch| ensures batch[i] !in rows[..p] {
      assert batch[i] in batch;
    }
  }

  lemma TakenTaking(size: map<string, int>, rows: seq<string>, rest: seq<string>, used: int, max: Option<int>, p: nat, q: nat)
    requires 0 < p < |rows| && rows[0] in size
    requires rows[0] !in rest && rows[0] != rows[p]
    requires TakenIffFits(size, rows[1..], rest, used + size[rows[0]], max, p - 1, q)
    ensures TakenIffFits(size, rows, [rows[0]] + rest, used, max, p, q + 1)
  {
    var batch := [rows[0]] + rest;
    assert rows[..p] == [rows[0]] + rows[1..][..p - 1];
    assert batch[..q + 1] == [rows[0]] + rest[..q];
    assert batch[..q + 1][1..] == rest[..q];
    forall i | q + 1 <= i < |batch| ensures batch[i] !in rows[..p] {
      assert batch[i] == rest[i - 1];
      assert rest[i - 1] in rest;
    }
    assert rows[p] in batch <==> rows[p] in rest;
  }

  lemma ChosenUnfolds(size: map<string, int>, rows: seq<string>, used: int, max: Option<int>, p: nat)
    requires forall k :: k in rows ==> k in size
    requires Distinct(rows) && p < |rows|
    ensures p > 0 ==> rows[0] != rows[p]
    ensures rows[0] in size && forall k :: k in rows[1..] ==> k in size
    ensures Distinct(rows[1..])
    ensures var skip := max.Some? && used + size[rows[0]] > max.value;
      var rest := Chosen(size, rows[1..], if skip then used else used + size[rows[0]], max);
      && Chosen(size, rows, used, max) == (if skip then rest else [rows[0]] + rest)
      && rows[0] !in rest && (forall i :: 0 <= i < |rest| ==> rest[i] in size)
  {
    assert rows[0] in rows && forall k :: k in rows[1..] ==> k in rows;
    assert rows[0] !in rows[1..];
    var skip := max.Some? && used + size[rows[0]] > max.value;
    var rest := Chosen(size, rows[1..], if skip then used else used + size[rows[0]], max);
    forall i | 0 <= i < |rest| ensures rest[i] in size {
      assert rest[i] in rest;
    }
  }

  lemma {:induction false} ChosenIffFits(size: map<string, int>, rows: seq<string>, used: int, max: Option<int>, p: nat) returns (q: nat)
    requires forall k :: k in rows ==> k in size
    requires Distinct(rows) && p < |rows|
    ensures TakenIffFits(size, rows, Chosen(size, rows, used, max), used, max, p, q)
  {
    hide *;
    ChosenUnfolds(size, rows, used, max, p);
    var skip := max.Some? && used + size[rows[0]] > max.value;
    var used' := if skip then used else used + size[rows[0]];
    var rest := Chosen(size, rows[1..], used', max);
    if p == 0 {
      q := 0;
      FirstIffFits(size, rows, rest, used, max);
    } else {
      q := ChosenIffFits(size, rows[1..], used', max, p - 1);
      if skip {
        TakenSkipping(size, rows, rest, used, max, p, q);
      } else {
        TakenTaking(size, rows, rest, used, max, p, q);
        q := q + 1;
      }
    }
  }

  lemma FirstIffFits(size: map<string, int>, rows: seq<string>, rest: seq<string>, used: int, max: Option<int>)
    requires rows != [] && rows[0] in size && rows[0] !in rest && forall i :: 0 <= i < |rest| ==> rest[i] in size
    ensures var skip := max.Some? && used + size[rows[0]] > max.value;
      TakenIffFits(size, rows, if skip then rest else [rows[0]] + rest, used, max, 0, 0)
  {
    assert rows[..0] == [] && Sum(size, []) == 0;
    assert rest[..0] == [] && ([rows[0]] + rest)[..0] == [];
  }

  /** Row `p` was taken exactly when it fitted after the rows taken before it. */
  ghost predicate FairAt(size: map<string, int>, rows: seq<string>, batch: seq<string>, max: Option<int>, p: nat) {
    exists q: nat :: TakenIffFits(size, rows, batch, 0, max, p, q)
  }

  /** The candidates are the oldest claimable rows, as many as the limit admits. */
  lemma CandidatesAreOldest(mailbox: map<string, MailRow>, nodeId: string, uploader: Option<string>, limit: nat)
    ensures var rows, all := Candidates(mailbox, nodeId, uploader, limit), Claimable(mailbox, nodeId, uploader);
      && IsSorted(Created(mailbox), rows)
      && |rows| == Min(limit, |all|)
      && (forall k :: k in rows ==> k in all)
      && (forall i, k :: 0 <= i < |rows| && k in all && k !in rows ==> Before(Created(mailbox), rows[i], k))
  {
    var all := Claimable(mailbox, nodeId, uploader);
    var sorted := SortBy(Created(mailbox), all);
    var rows := Candidates(mailbox, nodeId, uploader, limit);
    SortBySorts(Created(mailbox), all);
    forall i, k | 0 <= i < |rows| && k in all && k !in rows ensures Before(Created(mailbox), rows[i], k) {
      assert k in sorted;
      var j :| 0 <= j < |sorted| && sorted[j] == k;
      assert forall x :: 0 <= x < |rows| ==> rows[x] == sorted[x] && rows[x] in rows;
    }
  }

  /** The selection of a claim: an ordered part of the oldest claimable rows that
      keeps within the byte budget, and leaves a row behind only when it would
      not have fitted after the rows already taken. */
  lemma SelectionSpec(mailbox: map<string, MailRow>, nodeId: string, a: Action)
    requires a.Claim? && a.limit >= 0 && (a.maxBytes.Some? ==> a.maxBytes.value >= 0)
    ensures var rows, batch, size := Candidates(mailbox, nodeId, a.uploader, a.limit), BatchIds(mailbox, nodeId, a), Sizes(mailbox);
      && IsSorted(Created(mailbox), batch)
      && (forall k :: k in batch ==> k in rows)
      && (a.maxBytes.Some? ==> Sum(size, batch) <= a.maxBytes.value)
      && (forall p :: 0 <= p < |rows| ==> FairAt(size, rows, batch, a.maxBytes, p))
  {
    var rows, batch, size := Candidates(mailbox, nodeId, a.uploader, a.limit), BatchIds(mailbox, nodeId, a), Sizes(mailbox);
    CandidatesAreOldest(mailbox, nodeId, a.uploader, a.limit);
    hide Candidates, Chosen;
    SortedIsDistinct(Created(mailbox), rows);
    ChosenIsSorted(Created(mailbox), size, rows, 0, a.maxBytes);
    ChosenSize(size, rows, 0, a.maxBytes);
    forall p | 0 <= p < |rows| ensures FairAt(size, rows, batch, a.maxBytes, p) {
      var q := ChosenIffFits(size, rows, 0, a.maxBytes, p);
    }
  }

  /** A budget of at least one packet always takes the oldest claimable row. */
  lemma OldestIsTaken(mailbox: map<string, MailRow>, nodeId: string, a: Action, maxPacketBytes: int)
    requires a.Claim? && a.limit >= 1 && Claimable(mailbox, nodeId, a.uploader) != {}
    requires forall k :: k in mailbox ==> mailbox[k].size <= maxPacketBytes
    requires a.maxBytes.Some? ==> maxPacketBytes <= a.maxBytes.value
    ensures Claimable(mailbox, nodeId, a.uploader) <= mailbox.Keys
    ensures First(Created(mailbox), Claimable(mailbox, nodeId, a.uploader)) in BatchIds(mailbox, nodeId, a)
  {
    var all := Claimable(mailbox, nodeId, a.uploader);
    var first := First(Created(mailbox), all);
    assert SortBy(Created(mailbox), all)[0] == first;
    assert Candidates(mailbox, nodeId, a.uploader, a.limit)[0] == first;
  }

  // ----- Draining a mailbox -----

  /** `submit` stored a packet for this destination. */
  ghost predicate Brings(e: Entry, node: string) {
    && Commits(e) && e.op.action.Submit? && e.answer.value.Receipt? && e.answer.value.stored
    && e.answer.value.destinationId == node
  }

  ghost predicate ClaimsAny(e: Entry, node: string) {
    Commits(e) && e.op.action.Claim? && Caller(e) == node
  }

  lemma ActOnDestination(env: Env, s: Store, auth: Auth, a: Action, now: int, id: string)
    requires Precheck(env, auth.request.nodeId, a, now).None? && Act(env, s, auth, a, now).Ok?
    requires id in Act(env, s, auth, a, now).value.0.mailbox
    ensures var (s', r) := Act(env, s, auth, a, now).value;
      || (id in s.mailbox && s.mailbox[id].destination == s'.mailbox[id].destination)
      || (a.Submit? && r.Receipt? && r.stored && r.destinationId == s'.mailbox[id].destination)
  {
    hide Packet.Inspect, BatchIds, Tickets;
    if a.Claim? && id !in BatchIds(s.mailbox, auth.request.nodeId, a) {
      ClaimOnMail(env, s, auth.request.nodeId, a, now, id);
    }
  }

  /** Mail for a destination comes only from submissions that say so. */
  lemma DestinationStep(env: Env, t: seq<Entry>, k: nat, id: string)
    requires IsTrace(env, t) && k < |t| && id in t[k].after.mailbox && !Brings(t[k], t[k].after.mailbox[id].destination)
    ensures id in t[k].before.mailbox && t[k].before.mailbox[id].destination == t[k].after.mailbox[id].destination
  {
    var e := t[k];
    assert ValidAt(env, t, k);
    if !Commits(e) {
      OtherSpec(env, e);
    } else {
      CommitSpec(env, e);
      hide IsStep;
      ActOnDestination(env, Begun(env, e), e.op.auth, e.op.action, e.now, id);
    }
  }

  lemma {:induction false} MailOnlyLeaves(env: Env, t: seq<Entry>, a: nat, b: nat, node: string)
    requires IsTrace(env, t) && a <= b < |t|
    requires forall k :: a <= k < b ==> !Brings(t[k], node)
    ensures ForDestination(t[b].before.mailbox, node) <= ForDestination(t[a].before.mailbox, node)
    decreases b
  {
    if a == b {
    } else {
      MailOnlyLeaves(env, t, a, b - 1, node);
      assert LinkAt(t, b);
      forall id | id in ForDestination(t[b].before.mailbox, node) ensures id in ForDestination(t[b - 1].before.mailbox, node) {
        DestinationStep(env, t, b - 1, id);
      }
    }
  }

  /** No mail of the node is under a live lease. */
  ghost predicate Unleased(s: Store, node: string, now: int) {
    forall id :: id in s.mailbox && s.mailbox[id].destination == node ==> !LiveLease(s.mailbox[id], now)
  }

  /** Every lease on the node's mail comes from the claim at event `a`. */
  ghost predicate LeasesFrom(t: seq<Entry>, a: nat, s: Store, node: string)
    requires a < |t|
  {
    forall id :: id in ForDestination(s.mailbox, node) && s.mailbox[id].tokenHash.Some? ==> Claims(t[a], id)
  }

  /** The tables are purged at or after the expiry of this packet. */
  ghost predicate Expires(e: Entry, id: string) {
    (Commits(e) || e.op.PurgeNow?) && id in e.before.mailbox && e.before.mailbox[id].expires <= e.now
  }

  /** A round: the node claims, with room for any packet, and every packet it got
      is settled or expires before the round ends.  Meanwhile nobody uploads to it
      and it makes no other claim. */
  ghost predicate IsRound(env: Env, t: seq<Entry>, a: nat, b: nat, node: string) {
    && DisposesOfClaim(t, a, b, node)
    && (t[a].op.action.maxBytes.Some? ==> env.limits.maxPacketBytes <= t[a].op.action.maxBytes.value)
  }

  ghost predicate DisposesOfClaim(t: seq<Entry>, a: nat, b: nat, node: string) {
    && a < b < |t|
    && ClaimsAny(t[a], node) && t[a].op.action.uploader.None?
    && (forall k :: a <= k < b ==> !Brings(t[k], node))
    && (forall k :: a < k < b ==> !ClaimsAny(t[k], node))
    && (forall id :: Claims(t[a], id) ==> exists k :: a < k < b && (Settles(t[k], id) || Expires(t[k], id)))
  }

  /** A leased row after the claim was claimed by it, or was leased before. */
  lemma LeaseAfterClaim(env: Env, t: seq<Entry>, a: nat, id: string)
    requires IsTrace(env, t) && a < |t| && Commits(t[a]) && !Claims(t[a], id)
    requires id in t[a].after.mailbox && t[a].after.mailbox[id].tokenHash.Some?
    ensures id in t[a].before.mailbox && t[a].before.mailbox[id] == t[a].after.mailbox[id]
    ensures LiveLease(t[a].before.mailbox[id], t[a].now)
  {
    LeaseStepAt(env, t, a, id);
    PlainAt(env, t, a);
    if t[a].before.mailbox[id].expires <= t[a].now {
      ExpiredLeaves(env, t[a], id);
    } else {
      LeaseOutlives(env, t[a], id);
    }
  }

  lemma ExpiredLeaves(env: Env, e: Entry, id: string)
    requires IsStep(env, e) && Commits(e) && id in e.before.mailbox && e.before.mailbox[id].expires <= e.now
    ensures id in e.after.mailbox ==> e.after.mailbox[id].tokenHash.None?
  {
    CommitSpec(env, e);
    var s := Begun(env, e);
    assert id !in s.mailbox;
    hide IsStep, Begun;
    if id in e.after.mailbox && !e.op.action.Claim? {
      ActArrives(env, s, e.op.auth, e.op.action, e.now, id);
    }
  }

  lemma LeaseOutlives(env: Env, e: Entry, id: string)
    requires IsStep(env, e) && Disjoint(e.before) && Commits(e) && !Claims(e, id)
    requires id in e.before.mailbox && e.now < e.before.mailbox[id].expires && WholeLease(e.before.mailbox[id])
    requires id in e.after.mailbox && e.after.mailbox[id].tokenHash.Some?
    ensures LiveLease(e.before.mailbox[id], e.now)
  {
    BegunMail(env, e, id);
    hide IsStep, Begun;
    if Settles(e, id) {
      MailSettled(env, e, id);
    } else {
      CommittedMailKept(env, e, id);
    }
  }

  lemma {:induction false} RoundLeases(env: Env, t: seq<Entry>, a: nat, b: nat, n: nat, node: string)
    requires IsTrace(env, t) && IsRound(env, t, a, b, node) && a < n <= b
    requires Unleased(t[a].before, node, t[a].now)
    ensures LeasesFrom(t, a, t[n].before, node)
    decreases n
  {
    assert LinkAt(t, n);
    if n == a + 1 {
      forall id | id in ForDestination(t[n].before.mailbox, node) && t[n].before.mailbox[id].tokenHash.Some?
        ensures Claims(t[a], id)
      {
        if !Claims(t[a], id) {
          LeaseAfterClaim(env, t, a, id);
        }
      }
    } else {
      RoundLeases(env, t, a, b, n - 1, node);
      forall id | id in ForDestination(t[n].before.mailbox, node) && t[n].before.mailbox[id].tokenHash.Some?
        ensures Claims(t[a], id)
      {
        LeaseStepAt(env, t, n - 1, id);
        assert !ClaimsAny(t[n - 1], node);
      }
    }
  }

  /** What a round claimed is gone when it ends. */
  lemma RoundRemoves(env: Env, t: seq<Entry>, a: nat, b: nat, node: string, id: string)
    requires IsTrace(env, t) && IsRound(env, t, a, b, node) && Claims(t[a], id)
    ensures id !in ForDestination(t[b].before.mailbox, node)
  {
    var k :| a < k < b && (Settles(t[k], id) || Expires(t[k], id));
    if Settles(t[k], id) {
      SettlesSpec(env, t, k, id);
    } else {
      ExpiredIsGone(env, t, k, node, id);
    }
    assert LinkAt(t, k + 1);
    MailOnlyLeaves(env, t, k + 1, b, node);
  }

  /** An expired row is gone after a committed call that brings nothing. */
  lemma ExpiredIsGone(env: Env, t: seq<Entry>, k: nat, node: string, id: string)
    requires IsTrace(env, t) && k < |t| && Expires(t[k], id) && !Brings(t[k], node)
    ensures id !in ForDestination(t[k].after.mailbox, node)
  {
    assert ValidAt(env, t, k);
    var e := t[k];
    if Commits(e) && id in ForDestination(e.after.mailbox, node) {
      CommitSpec(env, e);
      assert id !in Begun(env, e).mailbox;
      hide IsStep, Begun;
      ActOnDestination(env, Begun(env, e), e.op.auth, e.op.action, e.now, id);
    }
  }

  /** At a claim with room for a packet, unleased mail either expires or yields at
      least one claimed packet. */
  lemma ClaimTakesSome(env: Env, t: seq<Entry>, a: nat, node: string, id: string)
    requires IsTrace(env, t) && a < |t| && ClaimsAny(t[a], node) && t[a].op.action.uploader.None?
    requires t[a].op.action.maxBytes.Some? ==> env.limits.maxPacketBytes <= t[a].op.action.maxBytes.value
    requires Unleased(t[a].before, node, t[a].now)
    requires id in ForDestination(t[a].before.mailbox, node) && t[a].now < t[a].before.mailbox[id].expires
    ensures exists x :: Claims(t[a], x) && x in ForDestination(t[a].before.mailbox, node)
  {
    InvAt(env, t, a);
    PlainAt(env, t, a);
    hide Inv;
    var x := CommittedClaimTakes(env, t[a], node, id);
    ClaimsSpec(env, t, a, x);
  }

  lemma CommittedClaimTakes(env: Env, e: Entry, node: string, id: string) returns (x: string)
    requires IsStep(env, e) && Inv(env, e.before) && Disjoint(e.before) && ClaimsAny(e, node) && e.op.action.uploader.None?
    requires e.op.action.maxBytes.Some? ==> env.limits.maxPacketBytes <= e.op.action.maxBytes.value
    requires id in ForDestination(e.before.mailbox, node) && e.now < e.before.mailbox[id].expires
    requires WholeLease(e.before.mailbox[id]) && !LiveLease(e.before.mailbox[id], e.now)
    ensures Claims(e, x)
  {
    BegunMail(env, e, id);
    BegunIsSized(env, e);
    hide Inv;
    x := BegunClaimTakes(env, e, id);
  }

  lemma BegunClaimTakes(env: Env, e: Entry, id: string) returns (x: string)
    requires IsStep(env, e) && Commits(e) && e.op.action.Claim? && e.op.action.uploader.None?
    requires e.op.action.maxBytes.Some? ==> env.limits.maxPacketBytes <= e.op.action.maxBytes.value
    requires id in Begun(env, e).mailbox && Begun(env, e).mailbox[id].destination == Caller(e)
    requires Begun(env, e).mailbox[id].tokenHash.None?
    requires forall k :: k in Begun(env, e).mailbox ==> Begun(env, e).mailbox[k].size <= env.limits.maxPacketBytes
    ensures Claims(e, x)
  {
    CommitSpec(env, e);
    hide IsStep, Begun, BatchIds, Tickets;
    x := OldestClaimed(Begun(env, e).mailbox, Caller(e), e.op.action, id, env.limits.maxPacketBytes);
    ClaimedAreLeased(env, Begun(env, e), Caller(e), e.op.action, e.now, x);
  }

  lemma OldestClaimed(m: map<string, MailRow>, node: string, c: Action, id: string, maxPacketBytes: int) returns (x: string)
    requires c.Claim? && c.limit >= 1 && c.uploader.None?
    requires id in m && m[id].destination == node && m[id].tokenHash.None?
    requires forall k :: k in m ==> m[k].size <= maxPacketBytes
    requires c.maxBytes.Some? ==> maxPacketBytes <= c.maxBytes.value
    ensures x in BatchIds(m, node, c)
  {
    assert id in Claimable(m, node, c.uploader);
    OldestIsTaken(m, node, c, maxPacketBytes);
    x := First(Created(m), Claimable(m, node, c.uploader));
  }

  lemma BegunIsSized(env: Env, e: Entry)
    requires IsStep(env, e) && Commits(e) && Inv(env, e.before)
    ensures forall k :: k in Begun(env, e).mailbox ==> Begun(env, e).mailbox[k].size <= env.limits.maxPacketBytes
  {
    CommitSpec(env, e);
    var m := Begun(env, e).mailbox;
    forall k | k in m ensures m[k].size <= env.limits.maxPacketBytes {
      assert RowOk(env, e.before.allow, k, e.before.mailbox[k]);
    }
  }

  /** Each round leaves strictly less mail, unless there was none, and no lease. */
  lemma RoundShrinks(env: Env, t: seq<Entry>, a: nat, b: nat, node: string)
    requires IsTrace(env, t) && IsRound(env, t, a, b, node) && Unleased(t[a].before, node, t[a].now)
    ensures Unleased(t[b].before, node, t[b].now)
    ensures var before, after := ForDestination(t[a].before.mailbox, node), ForDestination(t[b].before.mailbox, node);
      after <= before && (before == {} || |after| < |before|)
  {
    var before, after := ForDestination(t[a].before.mailbox, node), ForDestination(t[b].before.mailbox, node);
    RoundLeases(env, t, a, b, b, node);
    forall id | id in after ensures t[b].before.mailbox[id].tokenHash.None? {
      if t[b].before.mailbox[id].tokenHash.Some? {
        RoundRemoves(env, t, a, b, node, id);
      }
    }
    MailOnlyLeaves(env, t, a, b, node);
    if id :| id in before {
      var gone := RoundTakes(env, t, a, b, node, id);
      SubsetCard(after, before - {gone});
    }
  }

  lemma RoundTakes(env: Env, t: seq<Entry>, a: nat, b: nat, node: string, id: string) returns (gone: string)
    requires IsTrace(env, t) && IsRound(env, t, a, b, node) && Unleased(t[a].before, node, t[a].now)
    requires id in ForDestination(t[a].before.mailbox, node)
    ensures gone in ForDestination(t[a].before.mailbox, node) && gone !in ForDestination(t[b].before.mailbox, node)
  {
    if t[a].now < t[a].before.mailbox[id].expires {
      ClaimTakesSome(env, t, a, node, id);
      gone :| Claims(t[a], gone) && gone in ForDestination(t[a].before.mailbox, node);
      RoundRemoves(env, t, a, b, node, gone);
    } else {
      gone := id;
      ExpiredIsGone(env, t, a, node, id);
      assert LinkAt(t, a + 1);
      MailOnlyLeaves(env, t, a + 1, b, node);
    }
  }

  /** Consecutive rounds: `cuts[r]` to `cuts[r + 1]`. */
  ghost predicate AreRounds(env: Env, t: seq<Entry>, cuts: seq<nat>, node: string) {
    forall r :: 0 < r < |cuts| ==> IsRound(env, t, cuts[r - 1], cuts[r], node)
  }

  /** Draining: with no new uploads and no other live leases, rounds of claiming in
      which everything claimed is settled or expires leave at most `n - r` of `n`
      packets after `r` rounds: nothing after `n` of them. */
  lemma {:induction false} RoundsDrain(env: Env, t: seq<Entry>, cuts: seq<nat>, node: string)
    requires IsTrace(env, t) && cuts != [] && cuts[0] < |t| && AreRounds(env, t, cuts, node)
    requires Unleased(t[cuts[0]].before, node, t[cuts[0]].now)
    ensures cuts[|cuts| - 1] < |t| && Unleased(t[cuts[|cuts| - 1]].before, node, t[cuts[|cuts| - 1]].now)
    ensures |ForDestination(t[cuts[|cuts| - 1]].before.mailbox, node)|
            <= Max(0, |ForDestination(t[cuts[0]].before.mailbox, node)| - (|cuts| - 1))
  {
    if |cuts| == 1 {
    } else {
      var prior := cuts[..|cuts| - 1];
      RoundsDrain(env, t, prior, node);
      RoundShrinks(env, t, cuts[|cuts| - 2], cuts[|cuts| - 1], node);
    }
  }

  // ----- A packet that cannot be settled -----

  ghost predicate IsOldestMail(mailbox: map<string, MailRow>, node: string, id: string) {
    IsFirst(Created(mailbox), ForDestination(mailbox, node), id)
  }

  /** A packet whose id is not lowercase hexadecimal stays in the mailbox until it
      expires, and while it is the oldest of its destination a claim of one packet
      returns it and nothing else whenever its last lease has run out. */
  lemma StuckPacketIsReclaimed(env: Env, t: seq<Entry>, i: nat, n: nat, node: string, id: string)
    requires IsTrace(env, t) && i <= n < |t| && id in t[i].before.mailbox && !IsHexId(id)
    requires forall k :: i <= k <= n ==> t[k].now < t[i].before.mailbox[id].expires
    requires ClaimsAny(t[n], node) && t[n].op.action.limit == 1 && t[n].op.action.uploader.None?
    requires t[n].op.action.maxBytes.Some? ==> env.limits.maxPacketBytes <= t[n].op.action.maxBytes.value
    ensures id in t[n].before.mailbox
    ensures IsOldestMail(t[n].before.mailbox, node, id) ==> (Claims(t[n], id) <==> !LiveLease(t[n].before.mailbox[id], t[n].now))
    ensures IsOldestMail(t[n].before.mailbox, node, id) && Claims(t[n], id) ==> forall x :: Claims(t[n], x) ==> x == id
  {
    StuckStays(env, t, i, n, id);
    InvAt(env, t, n);
    PlainAt(env, t, n);
    if IsOldestMail(t[n].before.mailbox, node, id) {
      if LiveLease(t[n].before.mailbox[id], t[n].now) {
        if Claims(t[n], id) {
          ClaimsSpec(env, t, n, id);
        }
      } else {
        BegunMail(env, t[n], id);
        BegunIsSized(env, t[n]);
        hide Inv;
        OldestAlone(env, t[n], node, id);
      }
    }
  }

  lemma OldestAlone(env: Env, e: Entry, node: string, id: string)
    requires IsStep(env, e) && ClaimsAny(e, node) && e.op.action.uploader.None? && e.op.action.limit == 1
    requires e.op.action.maxBytes.Some? ==> env.limits.maxPacketBytes <= e.op.action.maxBytes.value
    requires id in Begun(env, e).mailbox && Begun(env, e).mailbox[id].tokenHash.None?
    requires forall k :: k in Begun(env, e).mailbox ==> Begun(env, e).mailbox[k].size <= env.limits.maxPacketBytes
    requires IsOldestMail(e.before.mailbox, node, id)
    ensures forall x :: Claims(e, x) <==> x == id
  {
    CommitSpec(env, e);
    PurgeKeepsOldest(e.before, e.now, node, id);
    hide IsStep, Begun, BatchIds, Tickets, Purge;
    OldestBatch(Begun(env, e).mailbox, node, e.op.action, id, env.limits.maxPacketBytes);
    forall x ensures Claims(e, x) <==> x == id {
      ClaimedAreLeased(env, Begun(env, e), Caller(e), e.op.action, e.now, x);
    }
  }

  lemma OldestBatch(m: map<string, MailRow>, node: string, a: Action, id: string, maxPacketBytes: int)
    requires a.Claim? && a.limit == 1 && a.uploader.None? && (a.maxBytes.Some? ==> maxPacketBytes <= a.maxBytes.value && a.maxBytes.value >= 0)
    requires forall k :: k in m ==> m[k].size <= maxPacketBytes
    requires IsFirst(Created(m), Claimable(m, node, None), id)
    ensures forall x :: x in BatchIds(m, node, a) <==> x == id
  {
    FirstIsUnique(Created(m), Claimable(m, node, None), id, First(Created(m), Claimable(m, node, None)));
    OldestIsTaken(m, node, a, maxPacketBytes);
    OneCandidate(m, node, a, id);
  }

  lemma PurgeKeepsOldest(s: Store, now: int, node: string, id: string)
    requires IsOldestMail(s.mailbox, node, id)
    requires id in Purge(s, now).mailbox && Purge(s, now).mailbox[id].tokenHash.None?
    ensures var m := Purge(s, now).mailbox; IsFirst(Created(m), Claimable(m, node, None), id)
  {
    var m := Purge(s, now).mailbox;
    forall x | x in Claimable(m, node, None) && x != id ensures Before(Created(m), id, x) {
      assert x in ForDestination(s.mailbox, node);
      assert Before(Created(s.mailbox), id, x);
    }
    hide TextLess;
  }

  lemma OneCandidate(m: map<string, MailRow>, node: string, a: Action, id: string)
    requires a.Claim? && a.limit == 1 && (a.maxBytes.Some? ==> a.maxBytes.value >= 0) && id in BatchIds(m, node, a)
    ensures forall x :: x in BatchIds(m, node, a) ==> x == id
  {
    SelectionSpec(m, node, a);
    CandidatesAreOldest(m, node, a.uploader, a.limit);
  }

  lemma StuckStays(env: Env, t: seq<Entry>, i: nat, n: nat, id: string)
    requires IsTrace(env, t) && i <= n < |t| && id in t[i].before.mailbox && !IsHexId(id)
    requires forall k :: i <= k < n ==> t[k].now < t[i].before.mailbox[id].expires
    ensures id in t[n].before.mailbox && t[n].before.mailbox[id].expires == t[i].before.mailbox[id].expires
  {
    var row := t[i].before.mailbox[id];
    PlainAt(env, t, i);
    HoldsUntil(env, t, i, n, id, row.raw, row.expires);
    if id in t[n].before.settlements {
      var k := ProofHasOrigin(env, t, n, id);
      OnlyHexIdsSettle(env, t, k, id);
    }
  }

  // ----- Over HTTP -----

  /** The claim of the HTTP service always leaves room for a packet, because no
      hub may be configured to take larger ones. */
  lemma HttpClaimTakesOldest(env: Env, s: Store, nodeId: string, a: Action)
    requires env.limits.Valid() && Inv(env, s)
    requires a.Claim? && a.limit >= 1 && a.maxBytes == Some(Packet.MAX_WIRE_BYTES)
    requires Claimable(s.mailbox, nodeId, a.uploader) != {}
    ensures Claimable(s.mailbox, nodeId, a.uploader) <= s.mailbox.Keys
    ensures First(Created(s.mailbox), Claimable(s.mailbox, nodeId, a.uploader)) in BatchIds(s.mailbox, nodeId, a)
  {
    forall k | k in s.mailbox ensures s.mailbox[k].size <= env.limits.maxPacketBytes {
      assert RowOk(env, s.allow, k, s.mailbox[k]);
    }
    hide Inv;
    OldestIsTaken(s.mailbox, nodeId, a, env.limits.maxPacketBytes);
  }

  /** A round whose claim came over HTTP. */
  ghost predicate IsHttpRound(t: seq<Entry>, a: nat, b: nat, node: string) {
    DisposesOfClaim(t, a, b, node) && t[a].op.action.maxBytes == Some(Packet.MAX_WIRE_BYTES)
  }

  /** Draining over HTTP: with no new uploads and no other live leases, `n` rounds
      empty a mailbox of `n` packets. */
  lemma HttpRoundsDrain(env: Env, t: seq<Entry>, cuts: seq<nat>, node: string)
    requires IsTrace(env, t) && cuts != [] && cuts[0] < |t|
    requires forall r :: 0 < r < |cuts| ==> IsHttpRound(t, cuts[r - 1], cuts[r], node)
    requires Unleased(t[cuts[0]].before, node, t[cuts[0]].now)
    requires |ForDestination(t[cuts[0]].before.mailbox, node)| < |cuts|
    ensures cuts[|cuts| - 1] < |t| && ForDestination(t[cuts[|cuts| - 1]].before.mailbox, node) == {}
  {
    forall r | 0 < r < |cuts| ensures IsRound(env, t, cuts[r - 1], cuts[r], node) {
      assert IsHttpRound(t, cuts[r - 1], cuts[r], node);
    }
    RoundsDrain(env, t, cuts, node);
  }
}
