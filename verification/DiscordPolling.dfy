/** Polling a channel: each message of a page in id order is ingested, routed
    when its evaluation allows, and only then passed by the cursor. */
module DiscordPolling {
  import opened Basics
  import opened Ordered
  import opened Discord

  // ----- Routing and the cursor -----

  function MarkRouted(l: Ledger, key: string, packetId: string): Result<Ledger> {
    var id := Lower(Strip(packetId));
    if !IsHexId(id) then Err(ValueError)
    else if key in l.events && l.events[key].routed == "" then
      Ok(l.(events := l.events[key := l.events[key].(routed := id)]))
    else if key in l.events && l.events[key].routed == id then Ok(l)
    else Err(ValueError)
  }

  function Cursor(l: Ledger, channel: nat): nat {
    if channel in l.cursors then l.cursors[channel] else 0
  }

  function MoveCursor(l: Ledger, channel: nat, id: nat): Ledger {
    l.(cursors := l.cursors[channel := if Cursor(l, channel) < id then id else Cursor(l, channel)])
  }

  /** The ledger after one message of a page, and whether the poll goes on. */
  function Handle(b: Bridge, l: Ledger, channel: nat, m: Message): (Ledger, bool) {
    match Ingest(b, l, m, channel)
    case Err(_) => (l, false)
    case Ok((stored, None)) => (MoveCursor(stored, channel, m.id), true)
    case Ok((stored, Some(event))) =>
      if b.queue.None? || b.destination == "" || !event.evaluation.surface || event.routed != "" then
        (MoveCursor(stored, channel, m.id), true)
      else
        match b.queue.value(KeyOf(b, m))
        case None => (stored, false)
        case Some(packetId) =>
          match MarkRouted(stored, KeyOf(b, m), packetId)
          case Err(_) => (stored, false)
          case Ok(marked) => (MoveCursor(marked, channel, m.id), true)
  }

  /** The ledger after a page, and how many messages were dealt with. */
  function Walk(b: Bridge, l: Ledger, channel: nat, messages: seq<Message>): (r: (Ledger, nat))
    ensures r.1 <= |messages|
    decreases |messages|
  {
    if messages == [] then (l, 0)
    else
      var (next, goesOn) := Handle(b, l, channel, messages[0]);
      if !goesOn then (next, 0)
      else
        var (last, n) := Walk(b, next, channel, messages[1..]);
        (last, n + 1)
  }

  /** Messages in id order; equal ids keep theirs. */
  function Insert(m: Message, sorted: seq<Message>): seq<Message> {
    if sorted == [] || m.id <= sorted[0].id then [m] + sorted else [sorted[0]] + Insert(m, sorted[1..])
  }

  function SortById(page: seq<Message>): seq<Message> {
    if page == [] then [] else Insert(page[0], SortById(page[1..]))
  }

  function PollPage(b: Bridge, l: Ledger, channel: nat, page: seq<Message>): (Ledger, nat) {
    if exists i :: 0 <= i < |page| && !IsSnowflake(page[i].id) then (l, 0) else Walk(b, l, channel, SortById(page))
  }

  // ----- The store and the bridge -----

  class DiscordSocialStore {
    var actors: map<string, ActorRow>
    var events: map<string, EventRow>
    var cursors: map<nat, nat>

    constructor ()
      ensures State() == BLANK
    {
      actors, events, cursors := map[], map[], map[];
    }

    function State(): Ledger
      reads this
    {
      Ledger(actors, events, cursors)
    }

    method IngestMessage(b: Bridge, m: Message, channelId: nat) returns (r: Result<Option<EventRow>>)
      modifies this
      ensures var spec := Ingest(b, old(State()), m, channelId);
        if r.Ok? then spec == Ok((State(), r.value)) else spec == Err(r.error) && State() == old(State())
    {
      if !IsSnowflake(m.id) || m.channelId != channelId || !IsSnowflake(m.authorId) {
        return Err(ValueError);
      }
      if m.authorId == b.botId {
        return Ok(None);
      }
      if !Acceptable(b, m) {
        return Err(ValueError);
      }
      var key, body := KeyOf(b, m), BodyOf(b, m);
      if key in events {
        if b.bodyHash(events[key].body) != b.bodyHash(body) {
          return Err(ValueError);
        }
        return Ok(Some(events[key]));
      }
      actors := actors[body.actorKey := Upsert(actors, body, CreatedMs(m.id), CreatedMs(m.authorId))];
      var event := EventRow(body, CreatedMs(m.id), b.evaluate(body.actorKey, actors[body.actorKey], body.tags), "");
      events := events[key := event];
      return Ok(Some(event));
    }

    method UpdateCursor(channel: nat, id: nat)
      modifies this
      ensures State() == MoveCursor(old(State()), channel, id)
    {
      var present := if channel in cursors then cursors[channel] else 0;
      cursors := cursors[channel := if present < id then id else present];
    }

    method Route(key: string, packetId: string) returns (r: Result<()>)
      modifies this
      ensures var spec := MarkRouted(old(State()), key, packetId);
        if r.Ok? then spec == Ok(State()) else spec == Err(r.error) && State() == old(State())
    {
      var id := Lower(Strip(packetId));
      if !IsHexId(id) {
        return Err(ValueError);
      }
      if key in events && events[key].routed == "" {
        events := events[key := events[key].(routed := id)];
        return Ok(());
      }
      if key in events && events[key].routed == id {
        return Ok(());
      }
      return Err(ValueError);
    }

    /** One message of a page. */
    method Step(b: Bridge, channel: nat, m: Message) returns (goesOn: bool)
      modifies this
      ensures (State(), goesOn) == Handle(b, old(State()), channel, m)
    {
      var r := IngestMessage(b, m, channel);
      if r.Err? {
        return false;
      }
      if r.value.Some? {
        var event := r.value.value;
        if b.queue.Some? && b.destination != "" && event.evaluation.surface && event.routed == "" {
          var packetId := b.queue.value(KeyOf(b, m));
          if packetId.None? {
            return false;
          }
          var routed := Route(KeyOf(b, m), packetId.value);
          if routed.Err? {
            return false;
          }
        }
      }
      UpdateCursor(channel, m.id);
      return true;
    }

    /** One channel of a poll: its page in id order. */
    method PollChannel(b: Bridge, channel: nat, page: seq<Message>) returns (done: nat)
      modifies this
      ensures (State(), done) == PollPage(b, old(State()), channel, page)
    {
      if exists i :: 0 <= i < |page| && !IsSnowflake(page[i].id) {
        return 0;
      }
      done := WalkPage(b, channel, SortById(page));
    }

    /** Message after message, up to the first failure. */
    method WalkPage(b: Bridge, channel: nat, ordered: seq<Message>) returns (done: nat)
      modifies this
      ensures (State(), done) == Walk(b, old(State()), channel, ordered)
    {
      hide *;
      done := 0;
      assert ordered[0..] == ordered;
      while done < |ordered|
        invariant done <= |ordered|
        invariant var (l, n) := Walk(b, State(), channel, ordered[done..]);
          Walk(b, old(State()), channel, ordered) == (l, done + n)
      {
        WalkUnfolds(b, State(), channel, ordered, done);
        var goesOn := Step(b, channel, ordered[done]);
        if !goesOn {
          return done;
        }
        done := done + 1;
      }
      WalkEnds(b, State(), channel, ordered[done..]);
    }
  }

  lemma WalkUnfolds(b: Bridge, l: Ledger, channel: nat, messages: seq<Message>, i: nat)
    requires i < |messages|
    ensures var (next, goesOn) := Handle(b, l, channel, messages[i]);
      Walk(b, l, channel, messages[i..])
      == if !goesOn then (next, 0)
         else (Walk(b, next, channel, messages[i + 1..]).0, Walk(b, next, channel, messages[i + 1..]).1 + 1)
  {
    assert messages[i..][1..] == messages[i + 1..];
  }

  lemma WalkEnds(b: Bridge, l: Ledger, channel: nat, messages: seq<Message>)
    requires messages == []
    ensures Walk(b, l, channel, messages) == (l, 0)
  {
  }

  // ----- What handling a message changes -----

  /** The message needs nothing more: it is the bot's own, or its event is stored
      and, if it may surface, routed. */
  ghost predicate Settled(b: Bridge, l: Ledger, m: Message) {
    IsOwn(b, m) || EventSettled(l.events, KeyOf(b, m))
  }

  ghost predicate EventSettled(events: map<string, EventRow>, key: string) {
    key in events && (events[key].evaluation.surface ==> events[key].routed != "")
  }

  predicate Routes(b: Bridge) {
    b.queue.Some? && b.destination != ""
  }

  lemma HandleOnCursor(b: Bridge, l: Ledger, channel: nat, m: Message)
    ensures var (l', goesOn) := Handle(b, l, channel, m);
      && Cursor(l', channel) == (if goesOn then Max(Cursor(l, channel), m.id) else Cursor(l, channel))
      && forall c :: c != channel ==> Cursor(l', c) == Cursor(l, c)
  {
    IngestOnCursors(b, l, m, channel);
    hide Ingest, KeyOf, Lower, Strip, IsHexId;
  }

  lemma IngestOnCursors(b: Bridge, l: Ledger, m: Message, channel: nat)
    ensures Ingest(b, l, m, channel).Ok? ==> Ingest(b, l, m, channel).value.0.cursors == l.cursors
  {
    hide Acceptable, BodyOf, Upsert, KeyOf;
  }

  lemma HandleOnEvents(b: Bridge, l: Ledger, channel: nat, m: Message, key: string)
    ensures var (l', goesOn) := Handle(b, l, channel, m);
      && (EventSettled(l.events, key) ==> EventSettled(l'.events, key))
      && (Routes(b) ==> (EventSettled(l'.events, key)
                         <==> EventSettled(l.events, key) || (goesOn && !IsOwn(b, m) && key == KeyOf(b, m))))
  {
    hide Acceptable, BodyOf, Upsert, Lower, Strip;
  }

  ghost predicate Ascending(messages: seq<Message>) {
    forall i, j :: 0 <= i < j < |messages| ==> messages[i].id < messages[j].id
  }

  ghost predicate Brings(b: Bridge, messages: seq<Message>, key: string) {
    exists i :: 0 <= i < |messages| && !IsOwn(b, messages[i]) && KeyOf(b, messages[i]) == key
  }

  /** Exactly the messages dealt with settle their events; the one that failed, and
      those behind it, settle nothing. */
  lemma {:induction false} WalkOnEvents(b: Bridge, l: Ledger, channel: nat, messages: seq<Message>, key: string)
    ensures var (l', n) := Walk(b, l, channel, messages);
      && (EventSettled(l.events, key) ==> EventSettled(l'.events, key))
      && (Routes(b) ==> (EventSettled(l'.events, key) <==> EventSettled(l.events, key) || Brings(b, messages[..n], key)))
    decreases |messages|
  {
    if messages == [] {
      assert !Brings(b, messages[..0], key);
    } else {
      HandleOnEvents(b, l, channel, messages[0], key);
      var (next, goesOn) := Handle(b, l, channel, messages[0]);
      hide Handle, EventSettled;
      if goesOn {
        WalkOnEvents(b, next, channel, messages[1..], key);
        var n := Walk(b, next, channel, messages[1..]).1;
        assert messages[..n + 1][1..] == messages[1..][..n];
        BringsCons(b, messages[..n + 1], key);
      } else {
        assert !Brings(b, messages[..0], key);
      }
    }
  }

  lemma BringsCons(b: Bridge, messages: seq<Message>, key: string)
    requires messages != []
    ensures Brings(b, messages, key) <==> (!IsOwn(b, messages[0]) && KeyOf(b, messages[0]) == key) || Brings(b, messages[1..], key)
  {
    hide KeyOf, IsOwn;
    if Brings(b, messages[1..], key) {
      var i :| 0 <= i < |messages[1..]| && !IsOwn(b, messages[1..][i]) && KeyOf(b, messages[1..][i]) == key;
      assert !IsOwn(b, messages[i + 1]) && KeyOf(b, messages[i + 1]) == key;
    }
    if Brings(b, messages, key) && !(!IsOwn(b, messages[0]) && KeyOf(b, messages[0]) == key) {
      var i :| 0 <= i < |messages| && !IsOwn(b, messages[i]) && KeyOf(b, messages[i]) == key;
      assert messages[1..][i - 1] == messages[i];
    }
  }

  lemma {:induction false} WalkOnCursor(b: Bridge, l: Ledger, channel: nat, messages: seq<Message>)
    requires Ascending(messages)
    ensures var (l', n) := Walk(b, l, channel, messages);
      && Cursor(l', channel) == (if n == 0 then Cursor(l, channel) else Max(Cursor(l, channel), messages[n - 1].id))
      && forall c :: c != channel ==> Cursor(l', c) == Cursor(l, c)
    decreases |messages|
  {
    if messages == [] {
    } else {
      HandleOnCursor(b, l, channel, messages[0]);
      var (next, goesOn) := Handle(b, l, channel, messages[0]);
      if goesOn {
        WalkOnCursor(b, next, channel, messages[1..]);
      }
    }
  }

  // ----- Sorting -----

  ghost predicate DistinctIds(page: seq<Message>) {
    forall i, j :: 0 <= i < j < |page| ==> page[i].id != page[j].id
  }

  lemma {:induction false} InsertSpec(m: Message, sorted: seq<Message>)
    requires Ascending(sorted) && forall i :: 0 <= i < |sorted| ==> sorted[i].id != m.id
    ensures Ascending(Insert(m, sorted))
    ensures forall x :: x in Insert(m, sorted) <==> x == m || x in sorted
  {
    if sorted == [] || m.id <= sorted[0].id {
    } else {
      var rest := Insert(m, sorted[1..]);
      InsertSpec(m, sorted[1..]);
      assert sorted == [sorted[0]] + sorted[1..];
      forall j | 0 <= j < |rest| ensures sorted[0].id < rest[j].id {
        assert rest[j] in rest;
        assert rest[j] == m || rest[j] in sorted[1..];
      }
    }
  }

  lemma {:induction false} SortSpec(page: seq<Message>)
    requires DistinctIds(page)
    ensures Ascending(SortById(page)) && forall x :: x in SortById(page) <==> x in page
  {
    if page == [] {
    } else {
      var rest := SortById(page[1..]);
      SortSpec(page[1..]);
      assert page == [page[0]] + page[1..];
      forall i | 0 <= i < |rest| ensures rest[i].id != page[0].id {
        assert rest[i] in rest;
        assert rest[i] in page[1..];
      }
      InsertSpec(page[0], rest);
    }
  }

  // ----- Cursor safety -----

  /** Every returned message that the cursor has passed is settled. */
  ghost predicate Safe(b: Bridge, l: Ledger, channel: nat, returned: set<Message>) {
    forall m :: m in returned && m.id <= Cursor(l, channel) ==> Settled(b, l, m)
  }

  /** A page as the API promises it: valid ids, each once, above the cursor. */
  ghost predicate IsPage(l: Ledger, channel: nat, page: seq<Message>) {
    && DistinctIds(page)
    && forall i :: 0 <= i < |page| ==> IsSnowflake(page[i].id) && page[i].id > Cursor(l, channel)
  }

  function Messages(page: seq<Message>): set<Message> {
    set m | m in page
  }

  predicate SameRevision(p: Message, m: Message) {
    p.id == m.id && p.channelId == m.channelId && p.Revision() == m.Revision()
  }

  ghost predicate Reaches(page: seq<Message>, id: nat) {
    exists p :: p in page && id <= p.id
  }

  /** The page brings back every unsettled message of earlier pages that it reaches. */
  ghost predicate Covers(b: Bridge, l: Ledger, channel: nat, page: seq<Message>, returned: set<Message>) {
    forall m :: m in returned && m.id > Cursor(l, channel) && !Settled(b, l, m) && Reaches(page, m.id) ==>
      exists p :: p in page && SameRevision(p, m) && !IsOwn(b, p)
  }

  /** The messages of a page that were dealt with, in id order. */
  function Done(b: Bridge, l: Ledger, channel: nat, page: seq<Message>): seq<Message> {
    SortById(page)[..PollPage(b, l, channel, page).1]
  }

  predicate Passes(done: seq<Message>, id: nat) {
    done != [] && id <= done[|done| - 1].id
  }

  /** What a page does to one message, wherever it stopped. */
  lemma PageOn(b: Bridge, l: Ledger, channel: nat, page: seq<Message>, m: Message)
    requires Routes(b) && IsPage(l, channel, page)
    ensures var l', done := PollPage(b, l, channel, page).0, Done(b, l, channel, page);
      && (Settled(b, l', m) <==> Settled(b, l, m) || Brings(b, done, KeyOf(b, m)))
      && (m.id <= Cursor(l', channel) <==> m.id <= Cursor(l, channel) || Passes(done, m.id))
  {
    SortSpec(page);
    hide SortById, EventSettled, Brings, Cursor, KeyOf, Walk;
    WalkOnEvents(b, l, channel, SortById(page), KeyOf(b, m));
    WalkOnCursor(b, l, channel, SortById(page));
  }

  /** A message of the page that the cursor passed was dealt with. */
  lemma PassedIsDone(b: Bridge, l: Ledger, channel: nat, page: seq<Message>, p: Message)
    requires IsPage(l, channel, page) && p in page && Passes(Done(b, l, channel, page), p.id)
    ensures !IsOwn(b, p) ==> Brings(b, Done(b, l, channel, page), KeyOf(b, p))
  {
    SortSpec(page);
    hide SortById, PollPage, KeyOf, IsOwn;
    var ordered, done := SortById(page), Done(b, l, channel, page);
    var i :| 0 <= i < |ordered| && ordered[i] == p;
    assert i < |done| && done[i] == p;
  }

  /** Exactly when a page keeps the cursor safe, whether it went through or failed
      anywhere: the messages dealt with must include an event for every message
      of earlier pages that was still open and is now passed. */
  lemma PollIsSafeIff(b: Bridge, l: Ledger, channel: nat, page: seq<Message>, returned: set<Message>)
    requires Routes(b) && IsPage(l, channel, page) && Safe(b, l, channel, returned)
    ensures var done := Done(b, l, channel, page);
      Safe(b, PollPage(b, l, channel, page).0, channel, returned + Messages(page))
      <==> forall m :: m in returned && !Settled(b, l, m) && Passes(done, m.id) ==> Brings(b, done, KeyOf(b, m))
  {
    var l', done := PollPage(b, l, channel, page).0, Done(b, l, channel, page);
    forall m | m in returned
      ensures Settled(b, l', m) <==> Settled(b, l, m) || Brings(b, done, KeyOf(b, m))
      ensures m.id <= Cursor(l', channel) <==> m.id <= Cursor(l, channel) || Passes(done, m.id)
    {
      PageOn(b, l, channel, page, m);
    }
    forall m | m in page && m.id <= Cursor(l', channel) ensures Settled(b, l', m) {
      PageOn(b, l, channel, page, m);
      PassedIsDone(b, l, channel, page, m);
      hide SortById, PollPage, Brings, KeyOf, Cursor, EventSettled;
    }
    hide Settled, PollPage, Done, Cursor, Brings, IsPage, Passes, KeyOf;
  }

  // ----- What a page must hold, wherever the callback fails -----

  function Queueing(b: Bridge, queue: string -> Option<string>): Bridge {
    b.(queue := Some(queue))
  }

  /** Two of these messages have different ids and one event key. */
  ghost predicate EventKeysCollide(b: Bridge, messages: set<Message>) {
    exists p, m :: p in messages && m in messages && p.id != m.id && KeyOf(b, p) == KeyOf(b, m)
  }

  predicate Ingests(b: Bridge, l: Ledger, channel: nat, m: Message) {
    Ingest(b, l, m, channel).Ok?
  }

  /** The page goes at least as far as this id: it has a message there or beyond,
      and the ledger takes that message and all before it. */
  ghost predicate GoesPast(b: Bridge, l: Ledger, channel: nat, page: seq<Message>, id: nat) {
    exists q :: q in page && id <= q.id && forall p :: p in page && p.id <= q.id ==> Ingests(b, l, channel, p)
  }

  ghost predicate Holds(b: Bridge, page: seq<Message>, key: string) {
    exists p :: p in page && !IsOwn(b, p) && KeyOf(b, p) == key
  }

  /** Handling a message does not change whether another is taken in. */
  lemma HandleKeepsIngests(b: Bridge, l: Ledger, channel: nat, m: Message, other: Message)
    requires KeyOf(b, m) != KeyOf(b, other)
    ensures Ingests(b, Handle(b, l, channel, m).0, channel, other) <==> Ingests(b, l, channel, other)
  {
    HandleOnKey(b, l, channel, m, KeyOf(b, other));
    hide Handle, Acceptable, BodyOf, Upsert, KeyOf;
  }

  lemma HandleOnKey(b: Bridge, l: Ledger, channel: nat, m: Message, key: string)
    requires KeyOf(b, m) != key
    ensures var l' := Handle(b, l, channel, m).0;
      (key in l'.events <==> key in l.events) && (key in l.events ==> l'.events[key] == l.events[key])
  {
    hide Acceptable, BodyOf, Upsert, Lower, Strip, IsHexId, KeyOf;
  }

  const SOME_PACKET_ID := seq(32, _ => '0')

  /** A callback that always succeeds. */
  function AlwaysQueues(b: Bridge): Bridge {
    Queueing(b, _ => Some(SOME_PACKET_ID))
  }

  lemma SomeIdIsPlain()
    ensures IsHexId(Lower(Strip(SOME_PACKET_ID)))
  {
    assert !IsSpace('0');
    assert Strip(SOME_PACKET_ID) == SOME_PACKET_ID;
    hide Strip;
  }

  lemma IngestedIsStored(b: Bridge, l: Ledger, channel: nat, m: Message)
    requires Ingests(b, l, channel, m)
    ensures var (stored, event) := Ingest(b, l, m, channel).value;
      event.Some? ==> KeyOf(b, m) in stored.events && stored.events[KeyOf(b, m)] == event.value
  {
    hide Acceptable, BodyOf, Upsert, KeyOf;
  }

  lemma HandleIngests(b: Bridge, l: Ledger, channel: nat, m: Message)
    ensures Handle(b, l, channel, m).1 ==> Ingests(b, l, channel, m)
  {
    hide Ingest, MarkRouted, KeyOf;
  }

  lemma HandleGoesOn(b: Bridge, l: Ledger, channel: nat, m: Message)
    requires Ingests(b, l, channel, m)
    ensures Handle(AlwaysQueues(b), l, channel, m).1
  {
    var good := AlwaysQueues(b);
    IngestIgnoresQueue(b, good, l, channel, m);
    IngestedIsStored(good, l, channel, m);
    SomeIdIsPlain();
    hide Ingest, KeyOf, Lower, Strip, IsHexId;
  }

  lemma IngestIgnoresQueue(b: Bridge, other: Bridge, l: Ledger, channel: nat, m: Message)
    requires other.queue.Some? && other == Queueing(b, other.queue.value)
    ensures Ingest(other, l, m, channel) == Ingest(b, l, m, channel)
  {
    hide Upsert;
  }

  /** A poll deals only with messages that the ledger takes in, and with a callback
      that succeeds it deals with every first part of the page that is taken in. */
  lemma {:induction false} WalkGoesFar(b: Bridge, l: Ledger, channel: nat, messages: seq<Message>)
    requires forall i, j :: 0 <= i < j < |messages| ==> KeyOf(b, messages[i]) != KeyOf(b, messages[j])
    ensures forall i :: 0 <= i < Walk(b, l, channel, messages).1 ==> Ingests(b, l, channel, messages[i])
    decreases |messages|
  {
    if messages == [] {
    } else {
      var (next, goesOn) := Handle(b, l, channel, messages[0]);
      HandleIngests(b, l, channel, messages[0]);
      hide Handle, Ingests, KeyOf;
      if goesOn {
        WalkGoesFar(b, next, channel, messages[1..]);
        forall i | 0 <= i < Walk(b, l, channel, messages).1 ensures Ingests(b, l, channel, messages[i]) {
          if i > 0 {
            assert messages[i] == messages[1..][i - 1];
            HandleKeepsIngests(b, l, channel, messages[0], messages[i]);
          }
        }
      }
    }
  }

  lemma {:induction false} WalkGoesPast(b: Bridge, l: Ledger, channel: nat, messages: seq<Message>, n: nat)
    requires forall i, j :: 0 <= i < j < |messages| ==> KeyOf(b, messages[i]) != KeyOf(b, messages[j])
    requires n <= |messages| && forall i :: 0 <= i < n ==> Ingests(b, l, channel, messages[i])
    ensures Walk(AlwaysQueues(b), l, channel, messages).1 >= n
    decreases n
  {
    if n == 0 {
    } else {
      HandleGoesOn(b, l, channel, messages[0]);
      var next := Handle(AlwaysQueues(b), l, channel, messages[0]).0;
      forall i | 0 <= i < n - 1 ensures Ingests(b, next, channel, messages[1..][i]) {
        HandleKeepsIngests(AlwaysQueues(b), l, channel, messages[0], messages[i + 1]);
        IngestIgnoresQueue(b, AlwaysQueues(b), l, channel, messages[i + 1]);
        IngestIgnoresQueue(b, AlwaysQueues(b), next, channel, messages[i + 1]);
      }
      hide Handle, Ingests, KeyOf;
      WalkGoesPast(b, next, channel, messages[1..], n - 1);
    }
  }

  lemma OrderedKeysDiffer(b: Bridge, page: seq<Message>, messages: set<Message>)
    requires DistinctIds(page) && Messages(page) <= messages && !EventKeysCollide(b, messages)
    ensures forall i, j :: 0 <= i < j < |SortById(page)| ==> KeyOf(b, SortById(page)[i]) != KeyOf(b, SortById(page)[j])
  {
    SortSpec(page);
    var ordered := SortById(page);
    hide SortById, KeyOf;
    forall i, j | 0 <= i < j < |ordered| ensures KeyOf(b, ordered[i]) != KeyOf(b, ordered[j]) {
      assert ordered[i] in ordered && ordered[j] in ordered;
      assert ordered[i] in messages && ordered[j] in messages;
    }
  }

  /** A poll passes an id only if the ledger takes in what comes up to it. */
  lemma PassedIsTaken(b: Bridge, l: Ledger, channel: nat, page: seq<Message>, id: nat)
    requires IsPage(l, channel, page) && !EventKeysCollide(b, Messages(page)) && Passes(Done(b, l, channel, page), id)
    ensures GoesPast(b, l, channel, page, id)
  {
    SortSpec(page);
    OrderedKeysDiffer(b, page, Messages(page));
    var ordered, done := SortById(page), Done(b, l, channel, page);
    WalkGoesFar(b, l, channel, ordered);
    hide SortById, KeyOf, Ingests, EventKeysCollide, Walk, Cursor;
    var q := done[|done| - 1];
    assert q in ordered;
    forall p | p in page && p.id <= q.id ensures Ingests(b, l, channel, p) {
      var i :| 0 <= i < |ordered| && ordered[i] == p;
      assert i < |done|;
    }
  }

  /** And with a callback that succeeds, it then does. */
  lemma TakenIsPassed(b: Bridge, l: Ledger, channel: nat, page: seq<Message>, id: nat)
    requires IsPage(l, channel, page) && !EventKeysCollide(b, Messages(page)) && GoesPast(b, l, channel, page, id)
    ensures Passes(Done(AlwaysQueues(b), l, channel, page), id)
  {
    SortSpec(page);
    OrderedKeysDiffer(b, page, Messages(page));
    var ordered, far := SortById(page), Done(AlwaysQueues(b), l, channel, page);
    assert far == ordered[..Walk(AlwaysQueues(b), l, channel, ordered).1];
    hide *;
    var n := TakenPrefix(b, l, channel, page, ordered, id);
    WalkGoesPast(b, l, channel, ordered, n + 1);
    LaterPasses(ordered, n, |far|, id);
  }

  lemma TakenPrefix(b: Bridge, l: Ledger, channel: nat, page: seq<Message>, ordered: seq<Message>, id: nat) returns (n: nat)
    requires GoesPast(b, l, channel, page, id) && Ascending(ordered) && forall x :: x in ordered <==> x in page
    ensures n < |ordered| && id <= ordered[n].id && forall i :: 0 <= i < n + 1 ==> Ingests(b, l, channel, ordered[i])
  {
    hide Ingests;
    var q :| q in page && id <= q.id && forall p :: p in page && p.id <= q.id ==> Ingests(b, l, channel, p);
    n :| 0 <= n < |ordered| && ordered[n] == q;
    forall i | 0 <= i < n + 1 ensures Ingests(b, l, channel, ordered[i]) {
      assert ordered[i] in ordered;
    }
  }

  lemma LaterPasses(ordered: seq<Message>, n: nat, m: nat, id: nat)
    requires Ascending(ordered) && n < m <= |ordered| && id <= ordered[n].id
    ensures Passes(ordered[..m], id)
  {
    assert n == m - 1 || ordered[n].id < ordered[m - 1].id;
  }

  lemma QueueingSame(b: Bridge, queue: string -> Option<string>, l: Ledger, channel: nat, returned: set<Message>)
    ensures Safe(Queueing(b, queue), l, channel, returned) <==> Safe(b, l, channel, returned)
  {
    assert forall m :: Settled(Queueing(b, queue), l, m) <==> Settled(b, l, m);
  }

  /** Whatever fails and wherever it fails, a page that brings back what earlier
      pages left open keeps the cursor safe. */
  lemma PollKeepsSafe(b: Bridge, l: Ledger, channel: nat, page: seq<Message>, returned: set<Message>)
    requires Routes(b) && IsPage(l, channel, page) && Covers(b, l, channel, page, returned)
    requires Safe(b, l, channel, returned)
    ensures Safe(b, PollPage(b, l, channel, page).0, channel, returned + Messages(page))
    ensures Cursor(l, channel) <= Cursor(PollPage(b, l, channel, page).0, channel)
  {
    var done := Done(b, l, channel, page);
    CursorAdvances(b, l, channel, page);
    forall m | m in returned && !Settled(b, l, m) && Passes(done, m.id) ensures Brings(b, done, KeyOf(b, m)) {
      DoneIsFromPage(b, l, channel, page);
      assert Reaches(page, m.id);
      var p :| p in page && SameRevision(p, m) && !IsOwn(b, p);
      PassedIsDone(b, l, channel, page, p);
      SameKey(b, p, m);
    }
    PollIsSafeIff(b, l, channel, page, returned);
  }

  /** What a page must hold, told from the page and the ledger alone: the cursor is
      safe wherever the callback fails exactly when the page holds an event for
      every message of earlier pages that is still open and that it goes past --
      unless two of the messages at hand share an event key. */
  lemma SafeWhereverItFailsIff(b: Bridge, l: Ledger, channel: nat, page: seq<Message>, returned: set<Message>)
    requires b.destination != "" && IsPage(l, channel, page) && Safe(b, l, channel, returned)
    ensures || EventKeysCollide(b, returned + Messages(page))
            || ((forall queue :: Safe(b, PollPage(Queueing(b, queue), l, channel, page).0, channel, returned + Messages(page)))
                <==> forall m :: m in returned && !Settled(b, l, m) && GoesPast(b, l, channel, page, m.id) ==>
                       Holds(b, page, KeyOf(b, m)))
  {
    if !EventKeysCollide(b, returned + Messages(page)) {
      FewerCollide(b, returned, page);
      if forall queue :: Safe(b, PollPage(Queueing(b, queue), l, channel, page).0, channel, returned + Messages(page)) {
        forall m | m in returned && !Settled(b, l, m) && GoesPast(b, l, channel, page, m.id) ensures Holds(b, page, KeyOf(b, m)) {
          assert Safe(b, PollPage(AlwaysQueues(b), l, channel, page).0, channel, returned + Messages(page));
          SafeMeansHeld(b, l, channel, page, returned, m);
        }
      }
      if forall m :: m in returned && !Settled(b, l, m) && GoesPast(b, l, channel, page, m.id) ==> Holds(b, page, KeyOf(b, m)) {
        forall queue ensures Safe(b, PollPage(Queueing(b, queue), l, channel, page).0, channel, returned + Messages(page)) {
          HeldMeansSafe(b, queue, l, channel, page, returned);
        }
      }
    }
  }

  lemma FewerCollide(b: Bridge, returned: set<Message>, page: seq<Message>)
    requires !EventKeysCollide(b, returned + Messages(page))
    ensures !EventKeysCollide(b, Messages(page))
  {
    hide KeyOf;
  }

  lemma SafeMeansHeld(b: Bridge, l: Ledger, channel: nat, page: seq<Message>, returned: set<Message>, m: Message)
    requires b.destination != "" && IsPage(l, channel, page) && !EventKeysCollide(b, Messages(page))
    requires Safe(b, l, channel, returned)
    requires Safe(b, PollPage(AlwaysQueues(b), l, channel, page).0, channel, returned + Messages(page))
    requires m in returned && !Settled(b, l, m) && GoesPast(b, l, channel, page, m.id)
    ensures Holds(b, page, KeyOf(b, m))
  {
    var good := AlwaysQueues(b);
    TakenIsPassed(b, l, channel, page, m.id);
    PageOn(good, l, channel, page, m);
    DoneIsFromPage(good, l, channel, page);
    hide PollPage, Done, GoesPast;
    var done := Done(good, l, channel, page);
    var i :| 0 <= i < |done| && !IsOwn(good, done[i]) && KeyOf(good, done[i]) == KeyOf(good, m);
    assert done[i] in page && !IsOwn(b, done[i]) && KeyOf(b, done[i]) == KeyOf(b, m);
  }

  lemma HeldMeansSafe(b: Bridge, queue: string -> Option<string>, l: Ledger, channel: nat, page: seq<Message>, returned: set<Message>)
    requires b.destination != "" && IsPage(l, channel, page) && Safe(b, l, channel, returned)
    requires !EventKeysCollide(b, returned + Messages(page))
    requires forall m :: m in returned && !Settled(b, l, m) && GoesPast(b, l, channel, page, m.id) ==> Holds(b, page, KeyOf(b, m))
    ensures Safe(b, PollPage(Queueing(b, queue), l, channel, page).0, channel, returned + Messages(page))
  {
    var q := Queueing(b, queue);
    var done := Done(q, l, channel, page);
    FewerCollide(b, returned, page);
    forall m | m in returned && !Settled(q, l, m) && Passes(done, m.id) ensures Brings(q, done, KeyOf(q, m)) {
      TakenUnderQueue(b, queue, l, channel, page, m.id);
      var p :| p in page && !IsOwn(b, p) && KeyOf(b, p) == KeyOf(b, m);
      assert p in returned + Messages(page) && m in returned + Messages(page);
      assert p.id == m.id;
      PassedIsDone(q, l, channel, page, p);
    }
    QueueingSame(b, queue, l, channel, returned);
    PollIsSafeIff(q, l, channel, page, returned);
    QueueingSame(b, queue, PollPage(q, l, channel, page).0, channel, returned + Messages(page));
  }

  lemma TakenUnderQueue(b: Bridge, queue: string -> Option<string>, l: Ledger, channel: nat, page: seq<Message>, id: nat)
    requires IsPage(l, channel, page) && !EventKeysCollide(b, Messages(page))
    requires Passes(Done(Queueing(b, queue), l, channel, page), id)
    ensures GoesPast(b, l, channel, page, id)
  {
    var q := Queueing(b, queue);
    SameKeysCollide(b, queue, Messages(page));
    PassedIsTaken(q, l, channel, page, id);
    forall p ensures Ingests(q, l, channel, p) <==> Ingests(b, l, channel, p) {
      IngestIgnoresQueue(b, q, l, channel, p);
    }
    hide Ingests, Done;
  }

  lemma SameKeysCollide(b: Bridge, queue: string -> Option<string>, messages: set<Message>)
    ensures EventKeysCollide(Queueing(b, queue), messages) <==> EventKeysCollide(b, messages)
  {
    assert forall m :: KeyOf(Queueing(b, queue), m) == KeyOf(b, m);
    hide KeyOf;
  }

  lemma CursorAdvances(b: Bridge, l: Ledger, channel: nat, page: seq<Message>)
    requires IsPage(l, channel, page)
    ensures Cursor(l, channel) <= Cursor(PollPage(b, l, channel, page).0, channel)
  {
    SortSpec(page);
    hide SortById, Walk, Cursor;
    WalkOnCursor(b, l, channel, SortById(page));
  }

  lemma DoneIsFromPage(b: Bridge, l: Ledger, channel: nat, page: seq<Message>)
    requires IsPage(l, channel, page)
    ensures forall i :: 0 <= i < |Done(b, l, channel, page)| ==> Done(b, l, channel, page)[i] in page
  {
    SortSpec(page);
    hide SortById, PollPage;
    assert forall i :: 0 <= i < |SortById(page)| ==> SortById(page)[i] in SortById(page);
  }

  lemma SameKey(b: Bridge, p: Message, m: Message)
    requires SameRevision(p, m)
    ensures KeyOf(b, p) == KeyOf(b, m)
  {
  }

  /** A page that skips an open message and passes it, even if it fails later on,
      loses it. */
  lemma OmissionLosesMessage(b: Bridge, l: Ledger, channel: nat, page: seq<Message>, m: Message)
    requires Routes(b) && IsPage(l, channel, page)
    requires m.id > Cursor(l, channel) && !Settled(b, l, m) && Passes(Done(b, l, channel, page), m.id)
    requires forall p :: p in page ==> KeyOf(b, p) != KeyOf(b, m)
    ensures !Safe(b, PollPage(b, l, channel, page).0, channel, {m})
  {
    DoneIsFromPage(b, l, channel, page);
    PageOn(b, l, channel, page, m);
    hide SortById, PollPage, KeyOf, Settled, Cursor, Done;
    assert m in {m};
  }

  // ----- Runs of polls -----

  /** One channel page of some poll, with the queue as it behaved at that time. */
  datatype Poll = Poll(channel: nat, page: seq<Message>, queue: string -> Option<string>)

  function At(b: Bridge, p: Poll): Bridge {
    b.(queue := Some(p.queue))
  }

  function After(b: Bridge, polls: seq<Poll>, n: nat): Ledger
    requires n <= |polls|
  {
    if n == 0 then BLANK else PollPage(At(b, polls[n - 1]), After(b, polls, n - 1), polls[n - 1].channel, polls[n - 1].page).0
  }

  function Returned(polls: seq<Poll>, channel: nat, n: nat): set<Message>
    requires n <= |polls|
  {
    if n == 0 then {}
    else Returned(polls, channel, n - 1) + if polls[n - 1].channel == channel then Messages(polls[n - 1].page) else {}
  }

  /** Pages that hold only ids above the cursor, and bring back what earlier pages
      of their channel left unsettled up to where they reach. */
  ghost predicate PagesInOrder(b: Bridge, polls: seq<Poll>) {
    forall k :: 0 <= k < |polls| ==>
      && IsPage(After(b, polls, k), polls[k].channel, polls[k].page)
      && Covers(b, After(b, polls, k), polls[k].channel, polls[k].page, Returned(polls, polls[k].channel, k))
  }

  lemma SafetyIgnoresQueue(b: Bridge, p: Poll, l: Ledger, channel: nat, page: seq<Message>, returned: set<Message>)
    ensures Safe(At(b, p), l, channel, returned) <==> Safe(b, l, channel, returned)
    ensures Covers(At(b, p), l, channel, page, returned) <==> Covers(b, l, channel, page, returned)
  {
    assert forall m :: Settled(At(b, p), l, m) <==> Settled(b, l, m);
    assert forall m :: IsOwn(At(b, p), m) <==> IsOwn(b, m);
  }

  /** A poll of another channel changes nothing the safety of this one rests on. */
  lemma OtherChannelKeepsSafe(b: Bridge, l: Ledger, channel: nat, page: seq<Message>, other: nat, returned: set<Message>)
    requires IsPage(l, channel, page) && channel != other && Safe(b, l, other, returned)
    ensures Safe(b, PollPage(b, l, channel, page).0, other, returned)
    ensures Cursor(PollPage(b, l, channel, page).0, other) == Cursor(l, other)
  {
    var ordered := SortById(page);
    SortSpec(page);
    WalkOnCursor(b, l, channel, ordered);
    hide Walk;
    forall m | m in returned && m.id <= Cursor(l, other) ensures Settled(b, Walk(b, l, channel, ordered).0, m) {
      WalkOnEvents(b, l, channel, ordered, KeyOf(b, m));
    }
  }

  /** Over any run of polls, with failures anywhere: the cursor of every channel is
      safe, and none ever moves back. */
  lemma {:induction false} CursorIsSafe(b: Bridge, polls: seq<Poll>, n: nat, channel: nat)
    requires b.destination != "" && PagesInOrder(b, polls) && n <= |polls|
    ensures Safe(b, After(b, polls, n), channel, Returned(polls, channel, n))
    ensures n > 0 ==> Cursor(After(b, polls, n - 1), channel) <= Cursor(After(b, polls, n), channel)
  {
    hide *;
    if n == 0 {
      NothingPolled(b, polls, channel);
    } else {
      CursorIsSafe(b, polls, n - 1, channel);
      PollUnfolds(b, polls, n, channel);
      SafeStep(b, polls[n - 1], After(b, polls, n - 1), channel, Returned(polls, channel, n - 1),
               Returned(polls, polls[n - 1].channel, n - 1));
    }
  }

  lemma NothingPolled(b: Bridge, polls: seq<Poll>, channel: nat)
    ensures Safe(b, After(b, polls, 0), channel, Returned(polls, channel, 0))
  {
  }

  lemma PollUnfolds(b: Bridge, polls: seq<Poll>, n: nat, channel: nat)
    requires PagesInOrder(b, polls) && 0 < n <= |polls|
    ensures var p, l := polls[n - 1], After(b, polls, n - 1);
      && After(b, polls, n) == PollPage(At(b, p), l, p.channel, p.page).0
      && Returned(polls, channel, n)
         == Returned(polls, channel, n - 1) + (if p.channel == channel then Messages(p.page) else {})
      && IsPage(l, p.channel, p.page) && Covers(b, l, p.channel, p.page, Returned(polls, p.channel, n - 1))
  {
    hide IsPage, Covers, PollPage;
  }

  lemma SafeStep(b: Bridge, p: Poll, l: Ledger, channel: nat, returned: set<Message>, covered: set<Message>)
    requires b.destination != "" && Safe(b, l, channel, returned)
    requires IsPage(l, p.channel, p.page) && Covers(b, l, p.channel, p.page, covered)
    requires p.channel == channel ==> covered == returned
    ensures var l' := PollPage(At(b, p), l, p.channel, p.page).0;
      && Safe(b, l', channel, returned + if p.channel == channel then Messages(p.page) else {})
      && Cursor(l, channel) <= Cursor(l', channel)
  {
    var l' := PollPage(At(b, p), l, p.channel, p.page).0;
    SafetyIgnoresQueue(b, p, l, channel, p.page, returned);
    SafetyIgnoresQueue(b, p, l', channel, p.page, returned + if p.channel == channel then Messages(p.page) else {});
    hide PollPage, Safe, Covers, IsPage;
    if p.channel == channel {
      PollKeepsSafe(At(b, p), l, channel, p.page, returned);
    } else {
      OtherChannelKeepsSafe(At(b, p), l, p.channel, p.page, channel, returned);
      assert returned + {} == returned;
    }
  }

  // ----- Aggregates, again -----

  /** Routing an event changes nothing that aggregates look at. */
  ghost predicate SameBodies(e: map<string, EventRow>, e': map<string, EventRow>) {
    e.Keys == e'.Keys && forall k :: k in e ==> e'[k].body == e[k].body && e'[k].createdMs == e[k].createdMs
  }

  lemma SameBodiesSameCounts(e: map<string, EventRow>, e': map<string, EventRow>, actor: string, row: ActorRow)
    requires SameBodies(e, e') && CountsOk(e, actor, row)
    ensures CountsOk(e', actor, row)
  {
    assert EventsOf(e', actor) == EventsOf(e, actor);
    forall kind ensures Counter(row, kind) == Min(Cap(kind), SumOver(Contributions(e', kind), EventsOf(e', actor))) {
      assert Contributions(e', kind) == Contributions(e, kind);
    }
  }

  lemma SameBodiesSameSeen(e: map<string, EventRow>, e': map<string, EventRow>, actor: string, row: ActorRow)
    requires SameBodies(e, e') && SeenOk(e, actor, row)
    ensures SeenOk(e', actor, row)
  {
    assert EventsOf(e', actor) == EventsOf(e, actor);
  }

  lemma RoutingKeepsAggregates(l: Ledger, key: string, packetId: string)
    requires AggregatesOk(l) && MarkRouted(l, key, packetId).Ok?
    ensures AggregatesOk(MarkRouted(l, key, packetId).value)
  {
    RoutingKeepsBodies(l, key, packetId);
    SameBodiesSameAggregates(l, MarkRouted(l, key, packetId).value);
  }

  lemma SameBodiesSameAggregates(l: Ledger, l': Ledger)
    requires AggregatesOk(l) && SameBodies(l.events, l'.events) && l'.actors == l.actors
    ensures AggregatesOk(l')
  {
    hide CountsOk, SeenOk;
    forall a | a in l.actors ensures ActorOk(l'.events, a, l.actors[a]) {
      assert ActorOk(l.events, a, l.actors[a]);
      SameBodiesSameCounts(l.events, l'.events, a, l.actors[a]);
      SameBodiesSameSeen(l.events, l'.events, a, l.actors[a]);
    }
    hide ActorOk;
  }

  lemma RoutingKeepsBodies(l: Ledger, key: string, packetId: string)
    requires MarkRouted(l, key, packetId).Ok?
    ensures var l' := MarkRouted(l, key, packetId).value; SameBodies(l.events, l'.events) && l'.actors == l.actors
  {
  }

  lemma HandleKeepsAggregates(b: Bridge, l: Ledger, channel: nat, m: Message)
    requires AggregatesOk(l)
    ensures AggregatesOk(Handle(b, l, channel, m).0)
  {
    hide AggregatesOk;
    var r := Ingest(b, l, m, channel);
    if r.Ok? {
      IngestKeepsAggregates(b, l, m, channel);
      if Routes(b) && r.value.1.Some? {
        var packetId := b.queue.value(KeyOf(b, m));
        if packetId.Some? && MarkRouted(r.value.0, KeyOf(b, m), packetId.value).Ok? {
          RoutingKeepsAggregates(r.value.0, KeyOf(b, m), packetId.value);
        }
      }
    }
    hide Ingest;
    assert forall x, c, i :: AggregatesOk(x) ==> AggregatesOk(MoveCursor(x, c, i)) by {
      forall x, c, i | AggregatesOk(x) ensures AggregatesOk(MoveCursor(x, c, i)) {
        CursorKeepsAggregates(x, c, i);
      }
    }
  }

  lemma CursorKeepsAggregates(l: Ledger, channel: nat, id: nat)
    requires AggregatesOk(l)
    ensures AggregatesOk(MoveCursor(l, channel, id))
  {
  }

  lemma {:induction false} WalkKeepsAggregates(b: Bridge, l: Ledger, channel: nat, messages: seq<Message>)
    requires AggregatesOk(l)
    ensures AggregatesOk(Walk(b, l, channel, messages).0)
    decreases |messages|
  {
    hide AggregatesOk, Handle;
    if messages == [] {
    } else {
      HandleKeepsAggregates(b, l, channel, messages[0]);
      WalkKeepsAggregates(b, Handle(b, l, channel, messages[0]).0, channel, messages[1..]);
    }
  }

  /** Every state that polling can reach has aggregates in step with its events. */
  lemma {:induction false} ReachableAggregates(b: Bridge, polls: seq<Poll>, n: nat)
    requires n <= |polls|
    ensures AggregatesOk(After(b, polls, n))
  {
    if n == 0 {
    } else {
      ReachableAggregates(b, polls, n - 1);
      WalkKeepsAggregates(At(b, polls[n - 1]), After(b, polls, n - 1), polls[n - 1].channel, SortById(polls[n - 1].page));
    }
  }
}
