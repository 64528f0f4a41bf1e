/** What each call answers, told by the tables before it and the clock: which
    packets a claim returns, which settlements a listing shows, and exactly when
    the other calls succeed. */
module CustodyAnswers {
  import opened Basics
  import opened Crypto
  import opened ControlObjects
  import opened Settlement
  import opened Ordered
  import opened Custody
  import opened CustodyInvariant
  import opened CustodySteps
  import opened CustodyRuns
  import opened CustodyClaims
  import opened CustodyCalls
  import Packet
  import PacketReading
  import RevisionVerdicts

  // ----- The first rows in an order -----

  /** The rows of `ids` that come before `id`. */
  ghost function Ahead(rank: map<string, int>, ids: set<string>, id: string): set<string> {
    set x | x in ids && x in rank && id in rank && (rank[x] < rank[id] || (rank[x] == rank[id] && TextLess(x, id)))
  }

  lemma PrefixIsAhead(rank: map<string, int>, ids: set<string>, s: seq<string>, p: nat)
    requires IsSorted(rank, s) && (forall k :: k in s <==> k in ids) && p < |s|
    ensures forall x :: x in Ahead(rank, ids, s[p]) <==> x in s[..p]
    ensures |Ahead(rank, ids, s[p])| == p
  {
    forall x ensures x in Ahead(rank, ids, s[p]) <==> x in s[..p] {
      if x in Ahead(rank, ids, s[p]) {
        var j :| 0 <= j < |s| && s[j] == x;
        TextLessTotal(s[j], s[p]);
        if j > p {
          assert Before(rank, s[p], s[j]);
          TextLessAsymmetric(s[p], s[j]);
        }
        assert j < p;
        assert s[..p][j] == x;
      }
      if x in s[..p] {
        var j :| 0 <= j < p && s[j] == x;
        assert Before(rank, s[j], s[p]);
        assert s[j] in ids;
      }
    }
    SortedIsDistinct(rank, s);
    DistinctSize(s[..p], Ahead(rank, ids, s[p]));
  }

  lemma TextLessAsymmetric(a: string, b: string)
    requires TextLess(a, b)
    ensures !TextLess(b, a)
  {
    if TextLess(b, a) {
      TextLessTransitive(a, b, a);
      TextLessTotal(a, a);
    }
  }

  lemma {:induction false} DistinctSize(s: seq<string>, ids: set<string>)
    requires Distinct(s) && forall x :: x in ids <==> x in s
    ensures |ids| == |s|
  {
    if s == [] {
      assert ids == {};
    } else {
      var rest, last := s[..|s| - 1], s[|s| - 1];
      assert s == rest + [last];
      assert last !in rest;
      DistinctSize(rest, ids - {last});
    }
  }

  /** The first `limit` rows in an order are those with fewer than `limit` ahead. */
  lemma FirstRowsIff(rank: map<string, int>, ids: set<string>, limit: nat, rows: seq<string>, id: string)
    requires ids <= rank.Keys
    requires rows == var all := SortBy(rank, ids); if |all| <= limit then all else all[..limit]
    ensures id in rows <==> id in ids && |Ahead(rank, ids, id)| < limit
  {
    var all := SortBy(rank, ids);
    SortBySorts(rank, ids);
    SortedIsDistinct(rank, all);
    if id in ids {
      var p :| 0 <= p < |all| && all[p] == id;
      PrefixIsAhead(rank, ids, all, p);
      if id in rows {
        var q :| 0 <= q < |rows| && rows[q] == id;
        assert all[q] == id && q == p;
      }
      if p < limit {
        assert rows[p] == id;
      }
    }
    if id in rows {
      assert id in all;
    }
  }

  lemma {:induction false} SumOfDistinct(size: map<string, int>, s: seq<string>, ids: set<string>)
    requires Distinct(s) && (forall x :: x in ids <==> x in s) && (forall i :: 0 <= i < |s| ==> s[i] in size)
    ensures ids <= size.Keys && Sum(size, s) == SumOver(size, ids)
  {
    if s == [] {
      assert ids == {};
    } else {
      assert s == [s[0]] + s[1..];
      assert s[0] !in s[1..];
      SumOfDistinct(size, s[1..], ids - {s[0]});
      SumRemoves(size, ids, s[0]);
    }
  }

  // ----- Which packets a claim returns -----

  /** The unexpired packets for a node that nobody holds a live lease on, from one
      uploader if one is asked for. */
  ghost function WaitingFor(mailbox: map<string, MailRow>, node: string, uploader: Option<string>, now: int): set<string> {
    set k | k in mailbox && mailbox[k].destination == node && now < mailbox[k].expires && !LiveLease(mailbox[k], now)
            && (uploader.Some? ==> mailbox[k].uploader == uploader.value)
  }

  /** Those of these packets that were created before `id`, or with it and under a
      smaller id. */
  ghost function OlderThan(m: map<string, MailRow>, ids: set<string>, id: string): set<string> {
    set x | x in ids && x in m && id in m
            && (m[x].created < m[id].created || (m[x].created == m[id].created && TextLess(x, id)))
  }

  /** Those of the waiting packets older than `id` that the claim returned. */
  ghost function ClaimedBefore(e: Entry, waiting: set<string>, id: string): set<string> {
    set x | x in OlderThan(e.before.mailbox, waiting, id) && Claims(e, x)
  }

  ghost function RawBytes(m: map<string, MailRow>, ids: set<string>): int
    requires ids <= m.Keys
  {
    SumOver(map k | k in m :: |m[k].raw|, ids)
  }

  lemma RawBytesAreSizes(m: map<string, MailRow>, ids: set<string>)
    requires ids <= m.Keys && forall k :: k in m ==> m[k].size == |m[k].raw|
    ensures RawBytes(m, ids) == SumOver(Sizes(m), ids)
  {
    SumAgrees(map k | k in m :: |m[k].raw|, Sizes(m), ids);
  }

  /** Exactly which packets a claim returns, whoever else has done what.  In the
      order of creation, a waiting packet is returned when fewer than `limit` are
      ahead of it and it fits the byte budget together with those ahead of it that
      are returned. */
  lemma ClaimReturnsIff(env: Env, t: seq<Entry>, n: nat, id: string)
    requires IsTrace(env, t) && n < |t| && Commits(t[n]) && t[n].op.action.Claim?
    ensures var a, m := t[n].op.action, t[n].before.mailbox;
      var waiting := WaitingFor(m, Caller(t[n]), a.uploader, t[n].now);
      && ClaimedBefore(t[n], waiting, id) <= m.Keys
      && (Claims(t[n], id) <==>
            && id in waiting && |OlderThan(m, waiting, id)| < a.limit
            && (a.maxBytes.Some? ==> RawBytes(m, ClaimedBefore(t[n], waiting, id)) + |m[id].raw| <= a.maxBytes.value))
  {
    PlainAt(env, t, n);
    SizesAreBytes(env, t, n);
    hide IsTrace;
    BatchIff(env, t[n], id);
  }

  lemma SizesAreBytes(env: Env, t: seq<Entry>, n: nat)
    requires IsTrace(env, t) && n < |t|
    ensures forall k :: k in t[n].before.mailbox ==> t[n].before.mailbox[k].size == |t[n].before.mailbox[k].raw| > 0
  {
    InvAt(env, t, n);
    hide IsStep;
    forall k | k in t[n].before.mailbox ensures t[n].before.mailbox[k].size == |t[n].before.mailbox[k].raw| > 0 {
      assert RowOk(env, t[n].before.allow, k, t[n].before.mailbox[k]);
    }
  }

  lemma BatchIff(env: Env, e: Entry, id: string)
    requires IsStep(env, e) && Commits(e) && e.op.action.Claim?
    requires forall k :: k in e.before.mailbox ==> WholeLease(e.before.mailbox[k])
    requires forall k :: k in e.before.mailbox ==> e.before.mailbox[k].size == |e.before.mailbox[k].raw|
    ensures var a, m := e.op.action, e.before.mailbox;
      var waiting := WaitingFor(m, Caller(e), a.uploader, e.now);
      && ClaimedBefore(e, waiting, id) <= m.Keys
      && (Claims(e, id) <==>
            && id in waiting && |OlderThan(m, waiting, id)| < a.limit
            && (a.maxBytes.Some? ==> RawBytes(m, ClaimedBefore(e, waiting, id)) + |m[id].raw| <= a.maxBytes.value))
  {
    var a, m, p := e.op.action, e.before.mailbox, Purge(e.before, e.now).mailbox;
    var waiting := WaitingFor(m, Caller(e), a.uploader, e.now);
    var claimed := ClaimedBefore(e, waiting, id);
    CommitSpec(env, e);
    assert a.limit >= 0 && Begun(env, e).mailbox == p;
    PurgedIsWaiting(e.before, Caller(e), a.uploader, e.now);
    forall x ensures Claims(e, x) <==> x in BatchIds(p, Caller(e), a) {
      ClaimedAreLeased(env, Begun(env, e), Caller(e), a, e.now, x);
    }
    hide IsStep, Begun, WaitingFor, Claims, BatchIds, Purge, Claimable, Ahead, OlderThan;
    AheadPurged(e.before, e.now, waiting, id);
    SelectedIff(p, Caller(e), a, waiting, id, claimed);
    SumAgrees(Sizes(m), Sizes(p), claimed);
    RawBytesAreSizes(m, claimed);
    if id in waiting {
      PurgedRow(e.before, e.now, id);
    }
  }

  lemma PurgedRow(s: Store, now: int, id: string)
    requires id in Purge(s, now).mailbox
    ensures id in s.mailbox && Purge(s, now).mailbox[id].size == s.mailbox[id].size
  {
  }

  /** What is claimable once the tables are purged is what is waiting. */
  lemma PurgedIsWaiting(s: Store, node: string, uploader: Option<string>, now: int)
    requires forall k :: k in s.mailbox ==> WholeLease(s.mailbox[k])
    ensures Claimable(Purge(s, now).mailbox, node, uploader) == WaitingFor(s.mailbox, node, uploader, now)
    ensures WaitingFor(s.mailbox, node, uploader, now) <= Purge(s, now).mailbox.Keys <= s.mailbox.Keys
    ensures forall k :: k in Purge(s, now).mailbox ==> Sizes(s.mailbox)[k] == Sizes(Purge(s, now).mailbox)[k]
  {
  }

  lemma AheadPurged(s: Store, now: int, ids: set<string>, id: string)
    requires ids <= Purge(s, now).mailbox.Keys
    ensures id in ids ==> Ahead(Created(Purge(s, now).mailbox), ids, id) == OlderThan(s.mailbox, ids, id)
    ensures OlderThan(s.mailbox, ids, id) <= ids
  {
  }

  /** The budgeted selection, row by row. */
  lemma SelectedIff(m: map<string, MailRow>, node: string, a: Action, waiting: set<string>, id: string, claimed: set<string>)
    requires a.Claim? && a.limit >= 0 && (a.maxBytes.Some? ==> a.maxBytes.value >= 0)
    requires waiting == Claimable(m, node, a.uploader) <= m.Keys
    requires id in waiting ==> forall x :: x in claimed <==> x in Ahead(Created(m), waiting, id) && x in BatchIds(m, node, a)
    ensures id in waiting ==> claimed <= m.Keys
    ensures id in BatchIds(m, node, a) <==>
              && id in waiting && |Ahead(Created(m), waiting, id)| < a.limit
              && (a.maxBytes.Some? ==> SumOver(Sizes(m), claimed) + m[id].size <= a.maxBytes.value)
  {
    var rows, batch := Candidates(m, node, a.uploader, a.limit), BatchIds(m, node, a);
    FirstRowsIff(Created(m), waiting, a.limit, rows, id);
    SelectionSpec(m, node, a);
    CandidatesAreOldest(m, node, a.uploader, a.limit);
    hide Candidates, BatchIds, Claimable;
    if id in rows {
      var p :| 0 <= p < |rows| && rows[p] == id;
      RowsAhead(m, node, a, waiting, rows, p);
      assert FairAt(Sizes(m), rows, batch, a.maxBytes, p);
      TakenSum(Sizes(m), rows, batch, a.maxBytes, p, claimed, Created(m), Ahead(Created(m), waiting, id));
    }
  }

  lemma RowsAhead(m: map<string, MailRow>, node: string, a: Action, waiting: set<string>, rows: seq<string>, p: nat)
    requires a.Claim? && a.limit >= 0 && waiting == Claimable(m, node, a.uploader) <= m.Keys
    requires rows == Candidates(m, node, a.uploader, a.limit) && p < |rows|
    ensures forall x :: x in Ahead(Created(m), waiting, rows[p]) <==> x in rows[..p]
  {
    var all := SortBy(Created(m), waiting);
    SortBySorts(Created(m), waiting);
    PrefixIsAhead(Created(m), waiting, all, p);
    assert rows[..p] == all[..p];
  }

  lemma TakenSum(size: map<string, int>, rows: seq<string>, batch: seq<string>, max: Option<int>, p: nat, claimed: set<string>,
                 rank: map<string, int>, ahead: set<string>)
    requires p < |rows| && FairAt(size, rows, batch, max, p) && IsSorted(rank, batch)
    requires forall x :: x in ahead <==> x in rows[..p]
    requires forall x :: x in claimed <==> x in ahead && x in batch
    ensures rows[p] in size && claimed <= size.Keys
    ensures rows[p] in batch <==> max.None? || SumOver(size, claimed) + size[rows[p]] <= max.value
  {
    var q: nat :| TakenIffFits(size, rows, batch, 0, max, p, q);
    SortedIsDistinct(rank, batch);
    forall x ensures x in claimed <==> x in batch[..q] {
      if x in claimed {
        var i :| 0 <= i < |batch| && batch[i] == x;
        assert i < q;
        assert batch[..q][i] == x;
      }
      if x in batch[..q] {
        var i :| 0 <= i < q && batch[i] == x;
        assert batch[i] in rows[..p];
      }
    }
    SumOfDistinct(size, batch[..q], claimed);
  }

  /** A claim for one uploader returns that uploader's packets only, under its name. */
  lemma ClaimHonoursUploader(env: Env, t: seq<Entry>, n: nat, i: nat)
    requires IsTrace(env, t) && n < |t| && Commits(t[n]) && t[n].op.action.Claim? && t[n].op.action.uploader.Some?
    requires t[n].answer.value.Claimed? && i < |t[n].answer.value.batch|
    ensures t[n].answer.value.batch[i].uploaderId == t[n].op.action.uploader.value
  {
    var id, m := t[n].answer.value.batch[i].packetId, t[n].before.mailbox;
    var waiting := WaitingFor(m, Caller(t[n]), t[n].op.action.uploader, t[n].now);
    ClaimAnswersAt(env, t, n, i);
    hide IsTrace;
    assert Claims(t[n], id);
    ClaimReturnsIff(env, t, n, id);
  }

  /** When limit and budget admit everything that waits, a claim returns exactly that. */
  lemma ClaimReturnsAll(env: Env, t: seq<Entry>, n: nat, id: string)
    requires IsTrace(env, t) && n < |t| && Commits(t[n]) && t[n].op.action.Claim?
    requires var a, m := t[n].op.action, t[n].before.mailbox;
      var waiting := WaitingFor(m, Caller(t[n]), a.uploader, t[n].now);
      |waiting| <= a.limit && (a.maxBytes.Some? ==> RawBytes(m, waiting) <= a.maxBytes.value)
    ensures Claims(t[n], id) <==> id in WaitingFor(t[n].before.mailbox, Caller(t[n]), t[n].op.action.uploader, t[n].now)
  {
    var m := t[n].before.mailbox;
    var waiting := WaitingFor(m, Caller(t[n]), t[n].op.action.uploader, t[n].now);
    var older, claimed := OlderThan(m, waiting, id), ClaimedBefore(t[n], waiting, id);
    ClaimReturnsIff(env, t, n, id);
    hide IsTrace, Claims, WaitingFor;
    if id in waiting {
      TextLessTotal(id, id);
      SubsetCard(older + {id}, waiting);
      var size := map k | k in m :: |m[k].raw|;
      SumOfSubset(size, claimed + {id}, waiting);
      SumRemoves(size, claimed + {id}, id);
      assert claimed + {id} - {id} == claimed;
    }
  }

  // ----- When the other calls succeed, and what they answer -----

  /** A call commits exactly when it passes, nothing refuses it beforehand, and its
      action succeeds on the purged tables. */
  lemma CallCommitsIff(env: Env, t: seq<Entry>, n: nat) returns (s: Store)
    requires IsTrace(env, t) && n < |t| && t[n].op.Call?
    ensures s.(nonces := t[n].before.nonces) == Purge(t[n].before, t[n].now).(nonces := t[n].before.nonces)
    ensures var e := t[n];
      && (Commits(e) <==> && Precheck(env, Caller(e), e.op.action, e.now).None? && Passes(env, t, n)
                          && Act(env, s, e.op.auth, e.op.action, e.now).Ok?)
      && (Commits(e) ==> Act(env, s, e.op.auth, e.op.action, e.now) == Ok((e.after, e.answer.value)))
      && (!Commits(e) ==>
            e.answer.Err? && e.answer.error
            == if Precheck(env, Caller(e), e.op.action, e.now).Some? then Precheck(env, Caller(e), e.op.action, e.now).value
               else if Passes(env, t, n) then Act(env, s, e.op.auth, e.op.action, e.now).error
               else if IsGenuineCall(env, e) then PermissionError else ValueError)
  {
    CallPassesIff(env, t, n);
    assert ValidAt(env, t, n);
    var e := t[n];
    var begun := Begin(env, e.before, e.op.auth, e.op.action.Body(), e.now);
    s := if begun.Ok? then begun.value else Purge(e.before, e.now);
    hide Passes, Precheck, Act, ConsumeRequest, Action.Body;
    BegunTables(env, e);
    RefusalOf(env, e);
    hide Begin;
  }

  ghost predicate IsGenuineCall(env: Env, e: Entry)
    requires e.op.Call?
  {
    var r, d := e.op.auth.request, e.op.auth.descriptor;
    && RevisionVerdicts.DescriptorHolds(env.crypto, d, e.now)
    && IsSignedCall(env.crypto, r, d, e.op.action.Body(), e.now) && IsWellFormed(r)
  }

  /** A transaction that does not begin: not permitted, or not even signed. */
  lemma RefusalOf(env: Env, e: Entry)
    requires e.op.Call?
    ensures var begun := Begin(env, e.before, e.op.auth, e.op.action.Body(), e.now);
      begun.Err? ==> begun.error == if IsGenuineCall(env, e) then PermissionError else ValueError
  {
    RequestHoldsIff(env.crypto, e.op.auth.request, e.op.auth.descriptor, e.op.action.Body(), e.now);
    hide Request.Verifies, RevisionVerdicts.DescriptorHolds, IsSignedCall, IsWellFormed, Purge;
  }

  /** What a call is refused with when it is not let through: the errors of its own
      checks come first, then those of the signature, then those of the node. */
  lemma RefusedWith(env: Env, t: seq<Entry>, n: nat)
    requires IsTrace(env, t) && n < |t| && t[n].op.Call? && !Passes(env, t, n)
    ensures t[n].answer
            == Err(if Precheck(env, Caller(t[n]), t[n].op.action, t[n].now).None? && IsGenuineCall(env, t[n])
                   then PermissionError else ValueError)
  {
    hide IsTrace, Passes, Act, IsGenuineCall;
    var s := CallCommitsIff(env, t, n);
  }

  lemma BegunTables(env: Env, e: Entry)
    requires e.op.Call?
    ensures Begin(env, e.before, e.op.auth, e.op.action.Body(), e.now).Ok? ==>
              var s := Begun(env, e);
              s.(nonces := e.before.nonces) == Purge(e.before, e.now).(nonces := e.before.nonces)
  {
    hide Request.Verifies, Purge;
  }

  /** The packet is held and unexpired. */
  ghost predicate IsHeld(s: Store, id: string, now: int) {
    || (id in s.mailbox && now < s.mailbox[id].expires)
    || (id in s.settlements && now < s.settlements[id].expires)
  }

  /** The unexpired rows of these. */
  ghost function Unexpired(m: map<string, MailRow>, now: int): set<string> {
    set k | k in m && now < m[k].expires
  }

  ghost function To(m: map<string, MailRow>, node: string, now: int): set<string> {
    set k | k in Unexpired(m, now) && m[k].destination == node
  }

  ghost function From(m: map<string, MailRow>, node: string, now: int): set<string> {
    set k | k in Unexpired(m, now) && m[k].uploader == node
  }

  /** One more packet of this size keeps within all four quotas. */
  ghost predicate HasRoom(limits: Limits, m: map<string, MailRow>, destination: string, uploader: string, size: int, now: int) {
    && |To(m, destination, now)| + 1 <= limits.maxPacketsPerDestination
    && RawBytes(m, To(m, destination, now)) + size <= limits.maxBytesPerDestination
    && |From(m, uploader, now)| + 1 <= limits.maxPacketsPerUploader
    && RawBytes(m, From(m, uploader, now)) + size <= limits.maxBytesPerUploader
  }

  lemma RoomIff(limits: Limits, s: Store, now: int, info: Packet.PacketInfo, uploader: string)
    requires forall k :: k in s.mailbox ==> s.mailbox[k].size == |s.mailbox[k].raw|
    ensures WithinQuota(limits, Purge(s, now).mailbox, info, uploader)
            <==> HasRoom(limits, s.mailbox, info.destinationId, uploader, |info.raw|, now)
  {
    var m, p := s.mailbox, Purge(s, now).mailbox;
    assert ForDestination(p, info.destinationId) == To(m, info.destinationId, now);
    assert FromUploader(p, uploader) == From(m, uploader, now);
    SameByteCount(m, p, To(m, info.destinationId, now));
    SameByteCount(m, p, From(m, uploader, now));
  }

  lemma SameByteCount(m: map<string, MailRow>, p: map<string, MailRow>, ids: set<string>)
    requires ids <= m.Keys && ids <= p.Keys
    requires forall k :: k in ids ==> p[k].size == |m[k].raw|
    ensures ByteCount(p, ids) == RawBytes(m, ids)
  {
    CheckedBytes(p, ids);
    SumAgrees(map k | k in m :: |m[k].raw|, Sizes(p), ids);
  }

  /** Valid bytes, not expired, and not too many. */
  ghost predicate IsWithin(env: Env, e: Entry, x: Packet.Outer)
    requires e.op.Call? && e.op.action.Submit?
  {
    var a := e.op.action;
    PacketReading.HasHeader(env.wire, a.raw, a.wallMs, x) && e.now < x.exp && |a.raw| <= env.limits.maxPacketBytes
  }

  /** What a submission must bring: such bytes, for a destination that is admitted. */
  ghost predicate IsDeliverable(env: Env, t: seq<Entry>, n: nat, x: Packet.Outer)
    requires n < |t| && t[n].op.Call? && t[n].op.action.Submit?
  {
    IsWithin(env, t[n], x) && AdmittedAt(t, n, x.dst)
  }

  /** Exactly when a submission is stored: it passes, is deliverable, is not held yet,
      and all four quotas have room; exactly when it is answered as held already; and
      what is stored. */
  lemma SubmitStoresIff(env: Env, t: seq<Entry>, n: nat, x: Packet.Outer)
    requires IsTrace(env, t) && n < |t| && t[n].op.Call? && t[n].op.action.Submit?
    requires env.wire.unpackOuter(t[n].op.action.raw) == Some(x)
    ensures var e, raw := t[n], t[n].op.action.raw;
      && (Stores(e, raw) <==>
            && Passes(env, t, n) && IsDeliverable(env, t, n, x) && raw != []
            && !IsHeld(e.before, x.id, e.now) && HasRoom(env.limits, e.before.mailbox, x.dst, Caller(e), |raw|, e.now))
      && (Commits(e) && !Stores(e, raw) <==>
            Passes(env, t, n) && IsDeliverable(env, t, n, x) && IsRepeated(env, e.before, e, x))
      && (!Commits(e) && Passes(env, t, n) ==>
            e.answer == Err(if !IsWithin(env, e, x) then ValueError else if !AdmittedAt(t, n, x.dst) then PermissionError
                            else if IsHeld(e.before, x.id, e.now) then ValueError
                            else if !HasRoom(env.limits, e.before.mailbox, x.dst, Caller(e), |raw|, e.now) then OverflowError
                            else IntegrityError))
      && (Stores(e, raw) ==>
            && e.answer == Ok(Receipt(x.id, x.dst, true, x.exp))
            && x.id in e.after.mailbox
            && e.after.mailbox[x.id] == MailRow(x.dst, Caller(e), raw, |raw|, x.ts, x.exp, if x.v == 1 then "normal" else x.qos, 0, None, None))
  {
    var e, a := t[n], t[n].op.action;
    hide IsTrace, IsStep, Passes, AdmittedAt, HasRoom, Act, Precheck, IsHeld, IsRepeated, Purge, IsGenuineCall, IsWithin;
    var s := CallCommitsIff(env, t, n);
    AllowedIff(env, t, n, x.dst);
    SizesAreBytes(env, t, n);
    SubmitOn(env, e.before, s, e, x);
  }

  lemma SubmitOn(env: Env, before: Store, s: Store, e: Entry, x: Packet.Outer)
    requires e.op.Call? && e.op.action.Submit? && env.wire.unpackOuter(e.op.action.raw) == Some(x)
    requires s.(nonces := before.nonces) == Purge(before, e.now).(nonces := before.nonces)
    requires forall k :: k in before.mailbox ==> before.mailbox[k].size == |before.mailbox[k].raw|
    ensures var a, raw := e.op.action, e.op.action.raw;
      var ready := Precheck(env, Caller(e), a, e.now).None?;
      && (ready <==> IsWithin(env, e, x))
      && (!ready ==> Precheck(env, Caller(e), a, e.now) == Some(ValueError))
      && (ready ==>
            var r := Act(env, s, e.op.auth, a, e.now);
            && (r.Ok? ==> r.value.1.Receipt?)
            && ((r.Ok? && r.value.1.stored) <==>
                  && IsAllowed(before, x.dst) && raw != [] && !IsHeld(before, x.id, e.now)
                  && HasRoom(env.limits, before.mailbox, x.dst, Caller(e), |raw|, e.now))
            && ((r.Ok? && !r.value.1.stored) <==>
                  IsAllowed(before, x.dst) && IsRepeated(env, before, e, x))
            && (r.Err? ==>
                  r.error == if !IsAllowed(before, x.dst) then PermissionError else if IsHeld(before, x.id, e.now) then ValueError
                             else if !HasRoom(env.limits, before.mailbox, x.dst, Caller(e), |raw|, e.now) then OverflowError
                             else IntegrityError)
            && (r.Ok? && r.value.1.stored ==>
                  && r.value.1 == Receipt(x.id, x.dst, true, x.exp)
                  && x.id in r.value.0.mailbox
                  && r.value.0.mailbox[x.id]
                     == MailRow(x.dst, Caller(e), raw, |raw|, x.ts, x.exp, if x.v == 1 then "normal" else x.qos, 0, None, None)))
  {
    var a := e.op.action;
    PacketReading.HeaderIff(env.wire, a.raw, a.wallMs, x);
    hide PacketReading.HasHeader, Packet.Inspect, HasRoom, IsHeld, IsRepeated, DoSubmit, Purge;
    var inspected := Packet.Inspect(env.wire, a.raw, a.wallMs);
    if inspected.Ok? {
      SubmitRowOn(env, before, s, e, x, inspected.value);
    }
  }

  lemma SubmitRowOn(env: Env, before: Store, s: Store, e: Entry, x: Packet.Outer, info: Packet.PacketInfo)
    requires e.op.Call? && e.op.action.Submit?
    requires s.(nonces := before.nonces) == Purge(before, e.now).(nonces := before.nonces)
    requires forall k :: k in before.mailbox ==> before.mailbox[k].size == |before.mailbox[k].raw|
    requires info.raw == e.op.action.raw && info.packetId == x.id && info.destinationId == x.dst
    ensures var raw, r := e.op.action.raw, DoSubmit(env, s, Caller(e), info);
      && (r.Ok? ==> r.value.1.Receipt?)
      && ((r.Ok? && r.value.1.stored) <==>
            && IsAllowed(before, x.dst) && raw != [] && !IsHeld(before, x.id, e.now)
            && HasRoom(env.limits, before.mailbox, x.dst, Caller(e), |raw|, e.now))
      && ((r.Ok? && !r.value.1.stored) <==> IsAllowed(before, x.dst) && IsRepeated(env, before, e, x))
      && (r.Err? ==>
            r.error == if !IsAllowed(before, x.dst) then PermissionError else if IsHeld(before, x.id, e.now) then ValueError
                       else if !HasRoom(env.limits, before.mailbox, x.dst, Caller(e), |raw|, e.now) then OverflowError
                       else IntegrityError)
      && (r.Ok? && r.value.1.stored ==>
            && r.value.1 == Receipt(x.id, x.dst, true, info.expiresMs) && x.id in r.value.0.mailbox
            && r.value.0.mailbox[x.id]
               == MailRow(x.dst, Caller(e), raw, |raw|, info.createdMs, info.expiresMs, info.qos, 0, None, None))
  {
    RoomIff(env.limits, before, e.now, info, Caller(e));
    PurgedTables(before, s, e.now, x.id);
    hide Purge, HasRoom, WithinQuota;
  }

  /** The packet is held already: these bytes as mail, or settled as this caller's. */
  ghost predicate IsRepeated(env: Env, s: Store, e: Entry, x: Packet.Outer)
    requires e.op.Call? && e.op.action.Submit?
  {
    if x.id in s.mailbox && e.now < s.mailbox[x.id].expires then s.mailbox[x.id].raw == e.op.action.raw
    else
      && x.id in s.settlements && e.now < s.settlements[x.id].expires
      && s.settlements[x.id].destination == x.dst && s.settlements[x.id].uploader == Caller(e)
      && s.settlements[x.id].rawSha256 == env.crypto.sha256(e.op.action.raw)
  }

  lemma PurgedTables(before: Store, s: Store, now: int, id: string)
    requires s.(nonces := before.nonces) == Purge(before, now).(nonces := before.nonces)
    ensures s.allow == before.allow && s.mailbox == Purge(before, now).mailbox
    ensures id in s.mailbox <==> id in before.mailbox && now < before.mailbox[id].expires
    ensures id in s.mailbox ==> s.mailbox[id] == ExpireClaim(before.mailbox[id], now)
    ensures id in s.settlements <==> id in before.settlements && now < before.settlements[id].expires
    ensures id in s.settlements ==> s.settlements[id] == before.settlements[id]
    ensures id in s.relays <==> id in before.relays && now < before.relays[id].expires
    ensures id in s.relays ==> s.relays[id] == before.relays[id]
  {
  }

  /** Exactly when a claim is answered; what it returns is `ClaimReturnsIff`. */
  lemma ClaimCommitsIff(env: Env, t: seq<Entry>, n: nat)
    requires IsTrace(env, t) && n < |t| && t[n].op.Call? && t[n].op.action.Claim?
    ensures var a := t[n].op.action;
      Commits(t[n]) <==>
        && Passes(env, t, n) && 1 <= a.limit <= 100 && 5_000 <= a.leaseMs <= 300_000
        && (a.maxBytes.Some? ==> a.maxBytes.value > 0) && (a.uploader.Some? ==> IsNodeId(a.uploader.value))
    ensures !Commits(t[n]) && Passes(env, t, n) ==> t[n].answer == Err(ValueError)
  {
    hide IsGenuineCall;
    hide IsTrace, IsStep, Passes, IsNodeId, BatchIds;
    var s := CallCommitsIff(env, t, n);
  }

  /** The packet is in the mailbox, unexpired, for this node and under a live lease
      whose token hashes to what is stored. */
  ghost predicate IsLeasedTo(env: Env, s: Store, id: string, node: string, token: string, now: int) {
    && id in s.mailbox && now < s.mailbox[id].expires && s.mailbox[id].destination == node
    && s.mailbox[id].claimUntil.Some? && now < s.mailbox[id].claimUntil.value
    && s.mailbox[id].tokenHash == Some(TokenHash(env, token))
  }

  /** The proof is signed with this key, timely, and about exactly this packet. */
  ghost predicate IsProofOf(c: Suite, p: DestinationSettlement, public: Bytes, id: string, row: MailRow, now: int) {
    && |public| == 32 && |p.signature| == 64 && c.verify(public, p.SigningFields(), p.signature)
    && p.version == 1 && p.objectType == "anet.destination-settlement.v1"
    && p.packetId == id && IsHexId(id) && p.packetSha256 == c.sha256(row.raw) && |p.packetSha256| == 32
    && p.destinationId == row.destination && p.uploaderId == row.uploader && IsNodeId(row.uploader) && IsNodeId(row.destination)
    && p.expiresMs == row.expires && 0 < p.settledMs < p.expiresMs && p.settledMs <= now + 5 * 60_000
  }

  /** Exactly when `settle` answers true, and exactly when it answers false. */
  lemma SettleIff(env: Env, t: seq<Entry>, n: nat)
    requires IsTrace(env, t) && n < |t| && t[n].op.Call? && t[n].op.action.Settle?
    ensures var e, a := t[n], t[n].op.action;
      var id := a.packetId;
      && (Settles(e, id) <==>
            && Passes(env, t, n) && IsAscii(a.token) && IsLeasedTo(env, e.before, id, Caller(e), a.token, e.now)
            && IsProofOf(env.crypto, a.proof, e.op.auth.descriptor.signPublic, id, e.before.mailbox[id], e.now))
      && (Commits(e) && !Settles(e, id) <==>
            Passes(env, t, n) && IsAscii(a.token) && !(id in e.before.mailbox && e.now < e.before.mailbox[id].expires))
      && (!Commits(e) && Passes(env, t, n) ==>
            e.answer == Err(if IsAscii(a.token) && !IsLeasedTo(env, e.before, id, Caller(e), a.token, e.now)
                            then PermissionError else ValueError))
  {
    hide IsGenuineCall, IsTrace, IsStep, Passes, IsAscii, IsLeasedTo, IsProofOf, Act, Precheck, Purge;
    var s := CallCommitsIff(env, t, n);
    InvAt(env, t, n);
    SettleOn(env, t[n].before, s, t[n]);
  }

  lemma SettleOn(env: Env, before: Store, s: Store, e: Entry)
    requires e.op.Call? && e.op.action.Settle? && e.before == before && Inv(env, before)
    requires s.(nonces := before.nonces) == Purge(before, e.now).(nonces := before.nonces)
    ensures var a := e.op.action;
      && Precheck(env, Caller(e), a, e.now) == (if IsAscii(a.token) then None else Some(ValueError))
      && (IsAscii(a.token) ==>
            var r := Act(env, s, e.op.auth, a, e.now);
            && (r.Ok? ==> r.value.1.Flag?)
            && (r.Err? ==> r.error == if IsLeasedTo(env, before, a.packetId, Caller(e), a.token, e.now) then ValueError else PermissionError)
            && ((r.Ok? && r.value.1.value) <==>
                  && IsLeasedTo(env, before, a.packetId, Caller(e), a.token, e.now)
                  && IsProofOf(env.crypto, a.proof, e.op.auth.descriptor.signPublic, a.packetId, before.mailbox[a.packetId], e.now))
            && ((r.Ok? && !r.value.1.value) <==> !(a.packetId in before.mailbox && e.now < before.mailbox[a.packetId].expires)))
  {
    var a := e.op.action;
    PurgedTables(before, s, e.now, a.packetId);
    hide IsAscii, Purge, Inv, TokenHash, IsLeasedTo, IsProofOf, DoSettle;
    SettleAsked(env, s, e.op.auth, a, e.now);
    if a.packetId in s.mailbox {
      var row := s.mailbox[a.packetId];
      LeaseIff(env, before, a.packetId, Caller(e), a.token, e.now);
      ProofIff(env, a.proof, e.op.auth.descriptor.signPublic, a.packetId, row, Caller(e), e.now);
      SameProof(env.crypto, a.proof, e.op.auth.descriptor.signPublic, a.packetId, row, before.mailbox[a.packetId], e.now);
    } else {
      LeasedIsHeld(env, before, a.packetId, Caller(e), a.token, e.now);
    }
    hide HoldsLease, ProofMatches, DestinationSettlement.Verifies, ExpireClaim;
  }

  /** The branches of a settle, for a row that is found or not. */
  lemma SettleAsked(env: Env, s: Store, auth: Auth, a: Action, now: int)
    requires a.Settle?
    ensures var r := DoSettle(env, s, auth, a, now);
      && (r.Ok? ==> r.value.1.Flag?)
      && (a.packetId !in s.mailbox ==> r.Ok? && !r.value.1.value)
      && (a.packetId in s.mailbox ==>
            var row := s.mailbox[a.packetId];
            var leased := row.destination == auth.request.nodeId && HoldsLease(env, row, a.token, now);
            var proved := && a.proof.Verifies(env.crypto, auth.descriptor.signPublic, now)
                          && ProofMatches(env, a.proof, a.packetId, auth.request.nodeId, row);
            if leased && proved then r.Ok? && r.value.1.value else r == Err(if leased then ValueError else PermissionError))
  {
    hide HoldsLease, ProofMatches, DestinationSettlement.Verifies;
  }

  lemma LeasedIsHeld(env: Env, s: Store, id: string, node: string, token: string, now: int)
    ensures IsLeasedTo(env, s, id, node, token, now) ==> id in s.mailbox && now < s.mailbox[id].expires
  {
  }

  lemma LeaseIff(env: Env, s: Store, id: string, node: string, token: string, now: int)
    requires id in s.mailbox && now < s.mailbox[id].expires
    ensures var row := ExpireClaim(s.mailbox[id], now);
      IsLeasedTo(env, s, id, node, token, now) <==> row.destination == node && HoldsLease(env, row, token, now)
  {
    hide TokenHash;
  }

  lemma ProofIff(env: Env, p: DestinationSettlement, public: Bytes, id: string, row: MailRow, node: string, now: int)
    requires now < row.expires
    ensures row.destination == node ==>
              ((p.Verifies(env.crypto, public, now) && ProofMatches(env, p, id, node, row))
               <==> IsProofOf(env.crypto, p, public, id, row, now))
  {
    hide IsHexId, IsNodeId, DestinationSettlement.SigningFields;
  }

  lemma SameProof(c: Suite, p: DestinationSettlement, public: Bytes, id: string, row: MailRow, other: MailRow, now: int)
    requires row == ExpireClaim(other, now)
    ensures IsProofOf(c, p, public, id, row, now) <==> IsProofOf(c, p, public, id, other, now)
  {
    hide IsHexId, IsNodeId, DestinationSettlement.SigningFields;
  }

  /** The caller's settlements that wait for acknowledgement. */
  ghost function Awaiting(m: map<string, SettledRow>, node: string, destination: Option<string>, now: int): set<string> {
    set k | k in m && now < m[k].expires && m[k].uploader == node && m[k].acknowledgedMs == 0
            && (destination.Some? ==> m[k].destination == destination.value)
  }

  ghost function SettledBefore(m: map<string, SettledRow>, ids: set<string>, id: string): set<string> {
    set x | x in ids && x in m && id in m
            && (m[x].settledMs < m[id].settledMs || (m[x].settledMs == m[id].settledMs && TextLess(x, id)))
  }

  ghost predicate Lists(e: Entry, id: string) {
    && Commits(e) && e.op.action.Settlements? && e.answer.value.Proofs?
    && exists m :: 0 <= m < |e.answer.value.proofs| && e.answer.value.proofs[m].packetId == id
  }

  /** Exactly when `settlements` is answered, and exactly what it lists: of those that
      wait the first `limit` in the order of their settlement. */
  lemma ListsIff(env: Env, t: seq<Entry>, n: nat, id: string)
    requires IsTrace(env, t) && n < |t| && t[n].op.Call? && t[n].op.action.Settlements?
    ensures var e, a := t[n], t[n].op.action;
      var waiting := Awaiting(e.before.settlements, Caller(e), a.destination, e.now);
      && (Commits(e) <==> Passes(env, t, n) && 1 <= a.limit <= 100 && (a.destination.Some? ==> IsNodeId(a.destination.value)))
      && (!Commits(e) && Passes(env, t, n) ==> e.answer == Err(ValueError))
      && (Commits(e) ==> (Lists(e, id) <==> id in waiting && |SettledBefore(e.before.settlements, waiting, id)| < a.limit))
  {
    hide IsTrace, IsStep, Passes, IsNodeId, Act, Precheck, Purge, Awaiting, SettledBefore, IsGenuineCall;
    var s := CallCommitsIff(env, t, n);
    InvAt(env, t, n);
    ListOn(env, t[n].before, s, t[n], id);
  }

  lemma ListOn(env: Env, before: Store, s: Store, e: Entry, id: string)
    requires e.op.Call? && e.op.action.Settlements? && Inv(env, before)
    requires s.(nonces := before.nonces) == Purge(before, e.now).(nonces := before.nonces)
    ensures var a := e.op.action;
      var waiting := Awaiting(before.settlements, Caller(e), a.destination, e.now);
      && Precheck(env, Caller(e), a, e.now)
         == (if 1 <= a.limit <= 100 && (a.destination.Some? ==> IsNodeId(a.destination.value)) then None else Some(ValueError))
      && (Precheck(env, Caller(e), a, e.now).None? ==>
            var r := Act(env, s, e.op.auth, a, e.now);
            && r.Ok? && r.value.1.Proofs?
            && ((exists m :: 0 <= m < |r.value.1.proofs| && r.value.1.proofs[m].packetId == id) <==>
                  id in waiting && |SettledBefore(before.settlements, waiting, id)| < a.limit))
  {
    var a := e.op.action;
    var waiting := Awaiting(before.settlements, Caller(e), a.destination, e.now);
    assert s.settlements == Purge(before, e.now).settlements;
    hide IsNodeId;
    if Precheck(env, Caller(e), a, e.now).None? {
      AwaitingIsPending(before, e.now, Caller(e), a.destination, id);
      ListedIff(before, e.now, Caller(e), a.destination, a.limit, id);
      ProofsAreOfListed(env, before, e.now, Caller(e), a.destination, a.limit, id);
      hide Purge, Listed, Inv, FromDict, Awaiting, SettledBefore;
    }
  }

  lemma AwaitingIsPending(before: Store, now: int, node: string, destination: Option<string>, id: string)
    ensures var rows, waiting := Purge(before, now).settlements, Awaiting(before.settlements, node, destination, now);
      && Pending(rows, node, destination) == waiting <= rows.Keys
      && (id in waiting ==> Ahead(SettledTimes(rows), waiting, id) == SettledBefore(before.settlements, waiting, id))
  {
  }

  lemma ListedIff(before: Store, now: int, node: string, destination: Option<string>, limit: nat, id: string)
    ensures var rows, waiting := Purge(before, now).settlements, Awaiting(before.settlements, node, destination, now);
      id in Listed(rows, node, destination, limit)
      <==> id in waiting && |SettledBefore(before.settlements, waiting, id)| < limit
  {
    var rows, waiting := Purge(before, now).settlements, Awaiting(before.settlements, node, destination, now);
    AwaitingIsPending(before, now, node, destination, id);
    FirstRowsIff(SettledTimes(rows), waiting, limit, Listed(rows, node, destination, limit), id);
    hide Awaiting, SettledBefore, Ahead, Pending, Purge;
  }

  /** Reading the listed rows succeeds, and gives one proof for each. */
  lemma ProofsAreOfListed(env: Env, before: Store, now: int, node: string, destination: Option<string>, limit: nat, id: string)
    requires Inv(env, before)
    ensures var rows := Purge(before, now).settlements;
      var ids := Listed(rows, node, destination, limit);
      var proofs := Traverse(FromDict, StoredProofs(rows, ids));
      && proofs.Ok?
      && ((exists m :: 0 <= m < |proofs.value| && proofs.value[m].packetId == id) <==> id in ids)
  {
    var rows := Purge(before, now).settlements;
    var ids := Listed(rows, node, destination, limit);
    hide Inv, Listed, FromDict, Purge, Pending, StoredProofs;
    forall k | k in ids ensures k in rows && FromDict(rows[k].proof).Ok? && FromDict(rows[k].proof).value.packetId == k {
      PendingIsRow(rows, node, destination, k);
      RowReads(env, before, now, k);
    }
    ReadInOrder(rows, ids, id);
  }

  lemma ReadInOrder(rows: map<string, SettledRow>, ids: seq<string>, id: string)
    requires forall k :: k in ids ==> k in rows && FromDict(rows[k].proof).Ok? && FromDict(rows[k].proof).value.packetId == k
    ensures var proofs := Traverse(FromDict, StoredProofs(rows, ids));
      && proofs.Ok?
      && ((exists m :: 0 <= m < |proofs.value| && proofs.value[m].packetId == id) <==> id in ids)
  {
    hide FromDict;
    var dicts := StoredProofs(rows, ids);
    forall i | 0 <= i < |ids| ensures dicts[i] == rows[ids[i]].proof && FromDict(dicts[i]).Ok? && FromDict(dicts[i]).value.packetId == ids[i] {
      assert ids[i] in ids;
    }
    TraverseSucceeds(FromDict, dicts);
    if id in ids {
      var i :| 0 <= i < |ids| && ids[i] == id;
      assert Traverse(FromDict, dicts).value[i].packetId == id;
    }
  }

  lemma PendingIsRow(rows: map<string, SettledRow>, node: string, destination: Option<string>, id: string)
    requires id in Pending(rows, node, destination)
    ensures id in rows
  {
  }

  lemma RowReads(env: Env, before: Store, now: int, id: string)
    requires Inv(env, before) && id in Purge(before, now).settlements
    ensures var proof := Purge(before, now).settlements[id].proof; FromDict(proof).Ok? && FromDict(proof).value.packetId == id
  {
    assert SettledOk(env, before.allow, id, before.settlements[id]);
    hide FromDict, SignedByDestination, DestinationSettlement.ShapeOk;
  }

  /** Exactly when an acknowledgement is accepted, and exactly when it is answered
      with false. */
  lemma AcknowledgeIff(env: Env, t: seq<Entry>, n: nat)
    requires IsTrace(env, t) && n < |t| && t[n].op.Call? && t[n].op.action.Acknowledge?
    ensures var e, m := t[n], t[n].before.settlements;
      var id := e.op.action.packetId;
      var kept := id in m && e.now < m[id].expires;
      && (Acknowledges(e, id) <==> Passes(env, t, n) && IsHexId(id) && kept && m[id].uploader == Caller(e) && m[id].acknowledgedMs == 0)
      && (Commits(e) && !Acknowledges(e, id) <==>
            Passes(env, t, n) && IsHexId(id) && (kept ==> m[id].uploader == Caller(e) && m[id].acknowledgedMs != 0))
      && (!Commits(e) && Passes(env, t, n) ==> e.answer == Err(if IsHexId(id) then PermissionError else ValueError))
      && (Acknowledges(e, id) ==> id in e.after.settlements && e.after.settlements[id] == m[id].(acknowledgedMs := e.now))
  {
    hide IsTrace, IsStep, Passes, IsHexId;
    var s := CallCommitsIff(env, t, n);
    PurgedTables(t[n].before, s, t[n].now, t[n].op.action.packetId);
    hide Purge;
  }

  // ----- Relay reservations -----

  ghost function LiveRelays(m: map<string, Reservation>, owner: string, now: int): set<string> {
    set k | k in m && now < m[k].expires && m[k].owner == owner
  }

  /** An unexpired reservation between these two, the first named being its owner. */
  ghost predicate IsBetween(m: map<string, Reservation>, id: string, owner: string, peer: string, now: int) {
    id in m && now < m[id].expires && m[id].owner == owner && m[id].peer == peer
  }

  /** What a node may ask for: another node, and terms within the limits. */
  ghost predicate TermsOk(limits: Limits, a: Action, caller: string)
    requires a.ReserveRelay?
  {
    && IsNodeId(a.peer) && a.peer != caller
    && 30_000 <= a.ttlMs <= limits.maxRelayTtlMs && 1_000 <= a.maxDurationMs <= limits.maxRelayDurationMs
    && 1 <= a.relayBytes <= limits.maxRelayBytes
  }

  lemma TermsIff(env: Env, caller: string, a: Action, now: int)
    requires a.ReserveRelay?
    ensures Precheck(env, caller, a, now) == if TermsOk(env.limits, a, caller) then None else Some(ValueError)
  {
    hide IsNodeId;
  }

  /** The reservation with new terms, and a new one. */
  function Renewed(r: Reservation, a: Action, now: int): Reservation
    requires a.ReserveRelay?
  {
    Reservation(r.reservationId, r.owner, r.peer, r.createdMs, now + a.ttlMs, a.maxDurationMs, a.relayBytes)
  }

  function Made(owner: string, a: Action, now: int): Reservation
    requires a.ReserveRelay?
  {
    Reservation(a.freshId, owner, a.peer, now, now + a.ttlMs, a.maxDurationMs, a.relayBytes)
  }

  /** The call committed, answered this reservation, and keeps it under its id. */
  ghost predicate Reserves(e: Entry, r: Reservation) {
    Commits(e) && e.answer == Ok(Reserved(r)) && r.reservationId in e.after.relays && e.after.relays[r.reservationId] == r
  }

  /** Exactly when a reservation between two nodes is renewed, and with what terms:
      the creation time stays, so the clock must not have fallen below it. */
  lemma RenewIff(env: Env, t: seq<Entry>, n: nat, id: string)
    requires IsTrace(env, t) && n < |t| && t[n].op.Call? && t[n].op.action.ReserveRelay?
    requires IsBetween(t[n].before.relays, id, Caller(t[n]), t[n].op.action.peer, t[n].now)
    ensures var e, a, row := t[n], t[n].op.action, t[n].before.relays[id];
      && (Commits(e) <==> && Passes(env, t, n) && TermsOk(env.limits, a, Caller(e)) && AdmittedAt(t, n, a.peer)
                          && row.createdMs < e.now + a.ttlMs)
      && (!Commits(e) && Passes(env, t, n) ==>
            e.answer == Err(if !TermsOk(env.limits, a, Caller(e)) then ValueError
                            else if !AdmittedAt(t, n, a.peer) then PermissionError else IntegrityError))
      && (Commits(e) ==> Reserves(e, Renewed(row, a, e.now)))
  {
    var e, a := t[n], t[n].op.action;
    hide IsTrace, IsStep, Passes, AdmittedAt, Precheck, Act, Purge, TermsOk, Inv, IsBetween;
    var s := CallCommitsIff(env, t, n);
    InvAt(env, t, n);
    AllowedIff(env, t, n, a.peer);
    TermsIff(env, Caller(e), a, e.now);
    if TermsOk(env.limits, a, Caller(e)) {
      RenewedBy(env, e.before, s, e, id);
    }
  }

  lemma RenewedBy(env: Env, before: Store, s: Store, e: Entry, id: string)
    requires e.op.Call? && e.op.action.ReserveRelay? && Inv(env, before)
    requires s.(nonces := before.nonces) == Purge(before, e.now).(nonces := before.nonces)
    requires IsBetween(before.relays, id, Caller(e), e.op.action.peer, e.now) && TermsOk(env.limits, e.op.action, Caller(e))
    ensures Precheck(env, Caller(e), e.op.action, e.now).None?
    ensures var a, row := e.op.action, before.relays[id];
      var r := Act(env, s, e.op.auth, a, e.now);
      && (r.Ok? <==> IsAllowed(before, a.peer) && row.createdMs < e.now + a.ttlMs)
      && (r.Err? ==> r.error == if IsAllowed(before, a.peer) then IntegrityError else PermissionError)
      && (r.Ok? ==> && r.value.1 == Reserved(Renewed(row, a, e.now)) && row.reservationId == id
                    && id in r.value.0.relays && r.value.0.relays[id] == Renewed(row, a, e.now))
  {
    var a := e.op.action;
    TermsIff(env, Caller(e), a, e.now);
    SameAllow(before, s, e.now);
    BetweenIsRelayId(env, before, s, e.now, Caller(e), a.peer, id);
    RenewOn(env, s, Caller(e), a, e.now, id);
    hide Precheck, Inv, Purge, TermsOk, RelayId, RelaysOf, LiveRelays, DoReserve;
  }

  lemma RenewOn(env: Env, s: Store, node: string, a: Action, now: int, id: string)
    requires a.ReserveRelay? && TermsOk(env.limits, a, node)
    requires RelayId(s.relays, node, a.peer) == Some(id) && id in s.relays && s.relays[id].Valid()
    requires s.relays[id].owner == node && s.relays[id].peer == a.peer && s.relays[id].reservationId == id
    ensures var r, row := DoReserve(env, s, node, a, now), Renewed(s.relays[id], a, now);
      && (r.Ok? <==> IsAllowed(s, a.peer) && s.relays[id].createdMs < now + a.ttlMs)
      && (r.Err? ==> r.error == if IsAllowed(s, a.peer) then IntegrityError else PermissionError)
      && (r.Ok? ==> r.value.1 == Reserved(row) && id in r.value.0.relays && r.value.0.relays[id] == row)
  {
    hide IsNodeId, IsHexId, RelayId, RelaysOf;
  }

  /** Exactly when a new reservation is made, and with what terms. */
  lemma ReserveIff(env: Env, t: seq<Entry>, n: nat)
    requires IsTrace(env, t) && n < |t| && t[n].op.Call? && t[n].op.action.ReserveRelay?
    requires forall k :: !IsBetween(t[n].before.relays, k, Caller(t[n]), t[n].op.action.peer, t[n].now)
    ensures var e, a, m := t[n], t[n].op.action, t[n].before.relays;
      && (Commits(e) <==> && Passes(env, t, n) && TermsOk(env.limits, a, Caller(e)) && AdmittedAt(t, n, a.peer)
                          && |LiveRelays(m, Caller(e), e.now)| < env.limits.maxRelaysPerNode && e.now > 0
                          && IsHexId(a.freshId) && !(a.freshId in m && e.now < m[a.freshId].expires))
      && (!Commits(e) && Passes(env, t, n) ==>
            e.answer == Err(if !TermsOk(env.limits, a, Caller(e)) then ValueError
                            else if !AdmittedAt(t, n, a.peer) then PermissionError
                            else if |LiveRelays(m, Caller(e), e.now)| >= env.limits.maxRelaysPerNode then OverflowError
                            else if a.freshId in m && e.now < m[a.freshId].expires then IntegrityError else ValueError))
      && (Commits(e) ==> Reserves(e, Made(Caller(e), a, e.now)))
  {
    var e, a := t[n], t[n].op.action;
    hide IsTrace, IsStep, Passes, AdmittedAt, Precheck, Act, Purge, TermsOk, Inv, IsBetween, LiveRelays, IsHexId, IsNodeId, IsGenuineCall;
    var s := CallCommitsIff(env, t, n);
    InvAt(env, t, n);
    AllowedIff(env, t, n, a.peer);
    CallerIsNode(env, t, n);
    TermsIff(env, Caller(e), a, e.now);
    if TermsOk(env.limits, a, Caller(e)) && IsNodeId(Caller(e)) {
      MadeBy(env, e.before, s, e);
    }
  }

  lemma MadeBy(env: Env, before: Store, s: Store, e: Entry)
    requires e.op.Call? && e.op.action.ReserveRelay? && Inv(env, before)
    requires s.(nonces := before.nonces) == Purge(before, e.now).(nonces := before.nonces)
    requires forall k :: !IsBetween(before.relays, k, Caller(e), e.op.action.peer, e.now)
    requires TermsOk(env.limits, e.op.action, Caller(e)) && IsNodeId(Caller(e))
    ensures Precheck(env, Caller(e), e.op.action, e.now).None?
    ensures var a, m, node := e.op.action, before.relays, Caller(e);
      var r := Act(env, s, e.op.auth, a, e.now);
      && (r.Ok? <==> && IsAllowed(before, a.peer) && |LiveRelays(m, node, e.now)| < env.limits.maxRelaysPerNode && e.now > 0
                     && IsHexId(a.freshId) && !(a.freshId in m && e.now < m[a.freshId].expires))
      && (r.Err? ==>
            r.error == if !IsAllowed(before, a.peer) then PermissionError
                       else if |LiveRelays(m, node, e.now)| >= env.limits.maxRelaysPerNode then OverflowError
                       else if a.freshId in m && e.now < m[a.freshId].expires then IntegrityError else ValueError)
      && (r.Ok? ==> && r.value.1 == Reserved(Made(node, a, e.now))
                    && a.freshId in r.value.0.relays && r.value.0.relays[a.freshId] == Made(node, a, e.now))
  {
    var a := e.op.action;
    TermsIff(env, Caller(e), a, e.now);
    PurgedTables(before, s, e.now, a.freshId);
    BetweenIsRelayId(env, before, s, e.now, Caller(e), a.peer, "");
    MakeOn(env, s, Caller(e), a, e.now);
    hide Precheck, Inv, Purge, TermsOk, RelayId, RelaysOf, LiveRelays, DoReserve, IsBetween, IsHexId, IsNodeId;
  }

  lemma MakeOn(env: Env, s: Store, node: string, a: Action, now: int)
    requires a.ReserveRelay? && TermsOk(env.limits, a, node) && IsNodeId(node) && RelayId(s.relays, node, a.peer).None?
    ensures var r, row := DoReserve(env, s, node, a, now), Made(node, a, now);
      && (r.Ok? <==> && IsAllowed(s, a.peer) && |RelaysOf(s.relays, node)| < env.limits.maxRelaysPerNode && now > 0
                     && IsHexId(a.freshId) && a.freshId !in s.relays)
      && (r.Err? ==>
            r.error == if !IsAllowed(s, a.peer) then PermissionError
                       else if |RelaysOf(s.relays, node)| >= env.limits.maxRelaysPerNode then OverflowError
                       else if a.freshId in s.relays then IntegrityError else ValueError)
      && (r.Ok? ==> r.value.1 == Reserved(row) && a.freshId in r.value.0.relays && r.value.0.relays[a.freshId] == row)
  {
    hide IsNodeId, IsHexId, RelayId, RelaysOf;
  }

  lemma CallerIsNode(env: Env, t: seq<Entry>, n: nat)
    requires IsTrace(env, t) && n < |t| && t[n].op.Call?
    ensures Passes(env, t, n) ==> IsNodeId(Caller(t[n]))
  {
    AllowedIff(env, t, n, Caller(t[n]));
    hide IsTrace, AdmittedAt, IsNodeId;
  }

  /** With at most one reservation per pair, the one found is the one there is. */
  lemma BetweenIsRelayId(env: Env, before: Store, s: Store, now: int, owner: string, peer: string, id: string)
    requires Inv(env, before) && s.(nonces := before.nonces) == Purge(before, now).(nonces := before.nonces)
    ensures RelaysOf(s.relays, owner) == LiveRelays(before.relays, owner, now)
    ensures IsBetween(before.relays, id, owner, peer, now) ==>
              && RelayId(s.relays, owner, peer) == Some(id) && id in s.relays && s.relays[id] == before.relays[id]
              && s.relays[id].Valid() && s.relays[id].reservationId == id
    ensures (forall k :: !IsBetween(before.relays, k, owner, peer, now)) <==> RelayId(s.relays, owner, peer).None?
  {
    assert s.relays == Purge(before, now).relays;
    BetweenRows(before, now, owner, peer);
    RelayRowsAre(env, before);
    hide RelayId, Inv, Purge, RelaysBetween, IsNodeId, IsHexId;
    var found, ids := RelayId(s.relays, owner, peer), RelaysBetween(s.relays, owner, peer);
    if found.None? {
      assert ids == {};
    } else {
      assert IsBetween(before.relays, found.value, owner, peer, now);
    }
  }

  lemma BetweenRows(before: Store, now: int, owner: string, peer: string)
    ensures var m := Purge(before, now).relays;
      && (forall k :: k in RelaysBetween(m, owner, peer) <==> IsBetween(before.relays, k, owner, peer, now))
      && (forall k :: k in m ==> k in before.relays && m[k] == before.relays[k])
      && (forall k :: IsBetween(before.relays, k, owner, peer, now) ==> k in m)
      && RelaysOf(m, owner) == LiveRelays(before.relays, owner, now)
  {
  }

  lemma RelayRowsAre(env: Env, s: Store)
    requires Inv(env, s)
    ensures PairsUnique(s.relays)
    ensures forall k :: k in s.relays ==> s.relays[k].Valid() && s.relays[k].reservationId == k
  {
    hide Reservation.Valid;
  }

  /** Exactly when a node is authorized on a reservation, or finds the one that an
      owner made with it; each is answered with the row itself. */
  lemma AuthorizeIff(env: Env, t: seq<Entry>, n: nat)
    requires IsTrace(env, t) && n < |t| && t[n].op.Call? && t[n].op.action.AuthorizeRelay?
    ensures var e, m := t[n], t[n].before.relays;
      var id := e.op.action.reservationId;
      && (Commits(e) <==>
            && Passes(env, t, n) && IsHexId(id) && id in m && e.now < m[id].expires
            && (Caller(e) == m[id].owner || Caller(e) == m[id].peer))
      && (Commits(e) ==> e.answer == Ok(Reserved(m[id])))
      && (!Commits(e) && Passes(env, t, n) ==>
            e.answer == Err(if !IsHexId(id) then ValueError
                            else if id in m && e.now < m[id].expires then PermissionError else LookupError))
  {
    hide IsGenuineCall;
    hide IsTrace, IsStep, Passes, IsHexId;
    var s := CallCommitsIff(env, t, n);
    PurgedTables(t[n].before, s, t[n].now, t[n].op.action.reservationId);
    hide Purge;
  }

  lemma FindIff(env: Env, t: seq<Entry>, n: nat)
    requires IsTrace(env, t) && n < |t| && t[n].op.Call? && t[n].op.action.FindRelay?
    ensures var e, m, owner := t[n], t[n].before.relays, t[n].op.action.owner;
      && (Commits(e) <==>
            Passes(env, t, n) && IsNodeId(owner) && AdmittedAt(t, n, owner) && exists id :: IsBetween(m, id, owner, Caller(e), e.now))
      && (!Commits(e) && Passes(env, t, n) ==>
            e.answer == Err(if !IsNodeId(owner) then ValueError else if !AdmittedAt(t, n, owner) then PermissionError else LookupError))
      && (Commits(e) ==> exists id :: IsBetween(m, id, owner, Caller(e), e.now) && e.answer == Ok(Reserved(m[id])))
  {
    var e, owner := t[n], t[n].op.action.owner;
    hide IsTrace, IsStep, Passes, IsNodeId, AdmittedAt, Inv, Purge, IsBetween, Act, Precheck;
    var s := CallCommitsIff(env, t, n);
    InvAt(env, t, n);
    AllowedIff(env, t, n, owner);
    FindOn(env, e.before, s, e);
  }

  lemma FindOn(env: Env, before: Store, s: Store, e: Entry)
    requires e.op.Call? && e.op.action.FindRelay? && Inv(env, before)
    requires s.(nonces := before.nonces) == Purge(before, e.now).(nonces := before.nonces)
    ensures var a, m := e.op.action, before.relays;
      && Precheck(env, Caller(e), a, e.now) == (if IsNodeId(a.owner) then None else Some(ValueError))
      && (Precheck(env, Caller(e), a, e.now).None? ==>
            var r := Act(env, s, e.op.auth, a, e.now);
            && (r.Err? ==> r.error == if IsAllowed(before, a.owner) then LookupError else PermissionError)
            && (r.Ok? <==> IsAllowed(before, a.owner) && exists id :: IsBetween(m, id, a.owner, Caller(e), e.now))
            && (r.Ok? ==> exists id :: IsBetween(m, id, a.owner, Caller(e), e.now) && r.value.1 == Reserved(m[id])))
  {
    var owner, found := e.op.action.owner, RelayId(s.relays, e.op.action.owner, Caller(e));
    SameAllow(before, s, e.now);
    BetweenIsRelayId(env, before, s, e.now, owner, Caller(e), if found.Some? then found.value else "");
    if id :| IsBetween(before.relays, id, owner, Caller(e), e.now) {
      BetweenIsRelayId(env, before, s, e.now, owner, Caller(e), id);
    }
    hide IsNodeId, Inv, Purge, RelayId, IsBetween, RelaysBetween, RelaysOf, LiveRelays;
  }

  lemma SameAllow(before: Store, s: Store, now: int)
    requires s.(nonces := before.nonces) == Purge(before, now).(nonces := before.nonces)
    ensures s.allow == before.allow
  {
  }

  /** A claim returns its packets in the order of creation, each once. */
  lemma ClaimIsOldestFirst(env: Env, t: seq<Entry>, n: nat, i: nat, j: nat)
    requires IsTrace(env, t) && n < |t| && Commits(t[n]) && t[n].op.action.Claim?
    requires t[n].answer.value.Claimed? && i < j < |t[n].answer.value.batch|
    ensures var a, b, m := t[n].answer.value.batch[i].packetId, t[n].answer.value.batch[j].packetId, t[n].before.mailbox;
      a in m && b in m && (m[a].created < m[b].created || (m[a].created == m[b].created && TextLess(a, b)))
  {
    var e, a := t[n], t[n].op.action;
    hide IsTrace, Act, Precheck, Purge, Passes;
    var s := CallCommitsIff(env, t, n);
    ClaimBatch(env, s, e);
    SameCreated(e.before, s, e.now);
    hide *;
    SelectionSpec(s.mailbox, Caller(e), a);
    SortedPair(s.mailbox, BatchIds(s.mailbox, Caller(e), a), i, j);
  }

  lemma ClaimBatch(env: Env, s: Store, e: Entry)
    requires e.op.Call? && e.op.action.Claim? && Precheck(env, Caller(e), e.op.action, e.now).None?
    requires e.answer.Ok? && Act(env, s, e.op.auth, e.op.action, e.now) == Ok((e.after, e.answer.value))
    ensures var a := e.op.action; a.limit >= 0 && (a.maxBytes.Some? ==> a.maxBytes.value >= 0)
    ensures var ids := BatchIds(s.mailbox, Caller(e), e.op.action);
      && e.answer.value.Claimed? && |e.answer.value.batch| == |ids|
      && forall i :: 0 <= i < |ids| ==> e.answer.value.batch[i].packetId == ids[i]
  {
    hide BatchIds, LeaseAll;
  }

  lemma SameCreated(before: Store, s: Store, now: int)
    requires s.(nonces := before.nonces) == Purge(before, now).(nonces := before.nonces)
    ensures forall k :: k in s.mailbox ==> k in before.mailbox && s.mailbox[k].created == before.mailbox[k].created
  {
    assert s.mailbox == Purge(before, now).mailbox;
  }

  lemma SortedPair(m: map<string, MailRow>, ids: seq<string>, i: nat, j: nat)
    requires IsSorted(Created(m), ids) && i < j < |ids|
    ensures ids[i] in m && ids[j] in m
    ensures m[ids[i]].created < m[ids[j]].created || (m[ids[i]].created == m[ids[j]].created && TextLess(ids[i], ids[j]))
  {
    hide TextLess;
    assert Before(Created(m), ids[i], ids[j]);
  }
}
