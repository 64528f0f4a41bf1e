/** The Discord event ledger: an aggregate per actor kept beside the events, and
    a cursor per channel that polling moves forward. */
module Discord {
  import opened Basics
  import opened Ordered

  const DISCORD_EPOCH_MS := 1420070400000
  const MAX_REACTIONS := 1000000
  const MAX_COUNT := 10000

  datatype Tag = PlatformDiscord | IsMention | IsReply | FromBot | FromWebhook | MassMention | IsPinned | HasAttachment

  /** A message as the API returns it. */
  datatype Message = Message(
    id: nat, channelId: nat, authorId: nat, edited: Option<string>, mentions: seq<nat>, repliesTo: Option<nat>,
    content: string, authorIsBot: bool, webhook: bool, massMention: bool, pinned: bool, attachments: nat, reactions: seq<int>)
  {
    function Revision(): string {
      if edited.Some? && edited.value != "" then edited.value else "create"
    }
  }

  /** What an event's body hash covers. */
  datatype Body = Body(messageId: nat, channelId: nat, actorKey: string, revision: string, withContent: bool,
                       content: string, tags: set<Tag>, reactions: int)

  datatype Evaluation = Evaluation(action: string, surface: bool)

  datatype ActorRow = ActorRow(firstSeen: int, lastSeen: int, accountCreated: int,
                               mentions: int, replies: int, reactions: int, pinned: int)

  /** A stored event.  The table keeps the hash of `body`. */
  datatype EventRow = EventRow(body: Body, createdMs: int, evaluation: Evaluation, routed: string)

  datatype Ledger = Ledger(actors: map<string, ActorRow>, events: map<string, EventRow>, cursors: map<nat, nat>)

  const BLANK := Ledger(map[], map[], map[])

  /** The bridge's surroundings.  `evaluate` is the policy applied to an actor (with
      its manual labels) and an event; `queue` is the outbound callback, which may
      fail. */
  datatype Bridge = Bridge(
    botId: nat, mentionsMode: bool, destination: string,
    actorKey: nat -> string, eventKey: (nat, nat, string) -> string, bodyHash: Body -> Bytes,
    evaluate: (string, ActorRow, set<Tag>) -> Evaluation,
    queue: Option<string -> Option<string>>)

  // ----- Ingesting -----

  predicate IsSnowflake(id: nat) {
    0 < id < 0x1_0000_0000_0000_0000
  }

  function CreatedMs(id: nat): int {
    id / 4194304 + DISCORD_EPOCH_MS
  }

  predicate IsOwn(b: Bridge, m: Message) {
    m.authorId == b.botId
  }

  function KeyOf(b: Bridge, m: Message): string {
    b.eventKey(m.channelId, m.id, m.Revision())
  }

  predicate MentionsBot(b: Bridge, m: Message) {
    b.botId in m.mentions
  }

  function TotalReactions(counts: seq<int>): int {
    if counts == [] then 0 else counts[0] + TotalReactions(counts[1..])
  }

  function TagsOf(b: Bridge, m: Message): set<Tag> {
    {PlatformDiscord}
    + (if MentionsBot(b, m) then {IsMention} else {})
    + (if m.repliesTo == Some(b.botId) then {IsReply} else {})
    + (if m.authorIsBot then {FromBot} else {})
    + (if m.webhook then {FromWebhook} else {})
    + (if m.massMention then {MassMention} else {})
    + (if m.pinned then {IsPinned} else {})
    + (if m.attachments > 0 then {HasAttachment} else {})
  }

  function BodyOf(b: Bridge, m: Message): Body {
    var withContent := b.mentionsMode && MentionsBot(b, m);
    Body(m.id, m.channelId, b.actorKey(m.authorId), m.Revision(), withContent, if withContent then m.content else "",
         TagsOf(b, m), Min(TotalReactions(m.reactions), MAX_REACTIONS))
  }

  /** The checks on a message of somebody else. */
  predicate Acceptable(b: Bridge, m: Message) {
    && 1 <= |m.Revision()| <= 64
    && |m.mentions| <= 100
    && (b.mentionsMode && MentionsBot(b, m) ==> |m.content| <= 2000)
    && m.attachments <= 100 && |m.reactions| <= 100
    && forall i :: 0 <= i < |m.reactions| ==> 0 <= m.reactions[i] <= MAX_REACTIONS
  }

  datatype Kind = Mentions | Replies | Reactions | Pins

  function Cap(kind: Kind): int {
    if kind.Reactions? then MAX_REACTIONS else MAX_COUNT
  }

  /** What an event adds to a counter of its author. */
  function Contribution(body: Body, kind: Kind): int {
    match kind
    case Mentions => if IsMention in body.tags then 1 else 0
    case Replies => if IsReply in body.tags then 1 else 0
    case Reactions => body.reactions
    case Pins => if IsPinned in body.tags then 1 else 0
  }

  function Counter(row: ActorRow, kind: Kind): int {
    match kind
    case Mentions => row.mentions
    case Replies => row.replies
    case Reactions => row.reactions
    case Pins => row.pinned
  }

  /** The actor's row after one more event: inserted, or merged on conflict. */
  function Upsert(actors: map<string, ActorRow>, body: Body, createdMs: int, accountCreated: int): ActorRow {
    var x := ActorRow(createdMs, createdMs, accountCreated, Contribution(body, Mentions), Contribution(body, Replies),
                      Contribution(body, Reactions), Contribution(body, Pins));
    if body.actorKey !in actors then x
    else
      var row := actors[body.actorKey];
      ActorRow(row.firstSeen, Max(row.lastSeen, x.lastSeen), row.accountCreated,
               Min(MAX_COUNT, row.mentions + x.mentions), Min(MAX_COUNT, row.replies + x.replies),
               Min(MAX_REACTIONS, row.reactions + x.reactions), Min(MAX_COUNT, row.pinned + x.pinned))
  }

  /** The event of a message and the ledger that holds it; nothing for the bot's own. */
  function Ingest(b: Bridge, l: Ledger, m: Message, channelId: nat): Result<(Ledger, Option<EventRow>)> {
    if !IsSnowflake(m.id) || m.channelId != channelId || !IsSnowflake(m.authorId) then Err(ValueError)
    else if IsOwn(b, m) then Ok((l, None))
    else if !Acceptable(b, m) then Err(ValueError)
    else
      var key, body := KeyOf(b, m), BodyOf(b, m);
      if key in l.events then
        if b.bodyHash(l.events[key].body) != b.bodyHash(body) then Err(ValueError)
        else Ok((l, Some(l.events[key])))
      else
        var actor := Upsert(l.actors, body, CreatedMs(m.id), CreatedMs(m.authorId));
        var event := EventRow(body, CreatedMs(m.id), b.evaluate(body.actorKey, actor, body.tags), "");
        Ok((l.(actors := l.actors[body.actorKey := actor], events := l.events[key := event]), Some(event)))
  }

  // ----- Aggregates agree with events -----

  ghost function EventsOf(events: map<string, EventRow>, actor: string): set<string> {
    set k | k in events && events[k].body.actorKey == actor
  }

  ghost function Contributions(events: map<string, EventRow>, kind: Kind): map<string, int> {
    map k | k in events :: Contribution(events[k].body, kind)
  }

  ghost predicate CountsOk(events: map<string, EventRow>, actor: string, row: ActorRow) {
    forall kind :: Counter(row, kind) == Min(Cap(kind), SumOver(Contributions(events, kind), EventsOf(events, actor)))
  }

  ghost predicate SeenOk(events: map<string, EventRow>, actor: string, row: ActorRow) {
    && (forall k :: k in EventsOf(events, actor) ==> events[k].createdMs <= row.lastSeen)
    && (exists k :: k in EventsOf(events, actor) && events[k].createdMs == row.lastSeen)
    && (exists k :: k in EventsOf(events, actor) && events[k].createdMs == row.firstSeen)
  }

  ghost predicate EventsOk(actors: map<string, ActorRow>, events: map<string, EventRow>) {
    forall k :: k in events ==>
      && events[k].body.actorKey in actors && events[k].body.reactions >= 0
      && events[k].createdMs == CreatedMs(events[k].body.messageId)
  }

  ghost predicate ActorOk(events: map<string, EventRow>, actor: string, row: ActorRow) {
    CountsOk(events, actor, row) && SeenOk(events, actor, row)
  }

  ghost predicate ActorsOk(events: map<string, EventRow>, actors: map<string, ActorRow>) {
    forall a {:trigger ActorOk(events, a, actors[a])} :: a in actors ==> ActorOk(events, a, actors[a])
  }

  /** Every event has its actor; every actor's counters are its events' sums, capped,
      and its last sighting their latest. */
  ghost predicate AggregatesOk(l: Ledger) {
    EventsOk(l.actors, l.events) && ActorsOk(l.events, l.actors)
  }

  lemma {:induction false} ReactionsNonNegative(counts: seq<int>)
    requires forall i :: 0 <= i < |counts| ==> counts[i] >= 0
    ensures TotalReactions(counts) >= 0
  {
    if counts == [] {
    } else {
      ReactionsNonNegative(counts[1..]);
    }
  }

  /** The sum for an actor after inserting one event. */
  lemma SumAfterInsert(events: map<string, EventRow>, key: string, event: EventRow, actor: string, kind: Kind)
    requires key !in events
    ensures SumOver(Contributions(events[key := event], kind), EventsOf(events[key := event], actor))
            == SumOver(Contributions(events, kind), EventsOf(events, actor))
               + if event.body.actorKey == actor then Contribution(event.body, kind) else 0
  {
    var more := events[key := event];
    var ids, ids' := EventsOf(events, actor), EventsOf(more, actor);
    SumAgrees(Contributions(more, kind), Contributions(events, kind), ids);
    if event.body.actorKey == actor {
      assert ids' - {key} == ids;
      SumRemoves(Contributions(more, kind), ids', key);
    } else {
      assert ids' == ids;
    }
  }

  lemma {:induction false} SumNonNegative(size: map<string, int>, ids: set<string>)
    requires ids <= size.Keys && forall k :: k in ids ==> size[k] >= 0
    ensures SumOver(size, ids) >= 0
    decreases |ids|
  {
    if ids == {} {
    } else {
      var a :| a in ids;
      SumRemoves(size, ids, a);
      SumNonNegative(size, ids - {a});
    }
  }

  lemma UpsertCounter(actors: map<string, ActorRow>, body: Body, createdMs: int, accountCreated: int, kind: Kind)
    requires 0 <= body.reactions <= MAX_REACTIONS
    ensures 0 <= Contribution(body, kind) <= Cap(kind)
    ensures Counter(Upsert(actors, body, createdMs, accountCreated), kind)
            == if body.actorKey in actors
               then Min(Cap(kind), Counter(actors[body.actorKey], kind) + Contribution(body, kind))
               else Contribution(body, kind)
  {
  }

  lemma UpsertCounts(l: Ledger, key: string, event: EventRow, accountCreated: int)
    requires AggregatesOk(l) && key !in l.events && 0 <= event.body.reactions <= MAX_REACTIONS
    ensures CountsOk(l.events[key := event], event.body.actorKey, Upsert(l.actors, event.body, event.createdMs, accountCreated))
  {
    var actor := event.body.actorKey;
    var row := Upsert(l.actors, event.body, event.createdMs, accountCreated);
    hide Upsert;
    forall kind ensures Counter(row, kind)
                        == Min(Cap(kind), SumOver(Contributions(l.events[key := event], kind), EventsOf(l.events[key := event], actor)))
    {
      EventSumsNonNegative(l, actor, kind);
      SumBefore(l, actor, kind);
      hide AggregatesOk;
      UpsertCounter(l.actors, event.body, event.createdMs, accountCreated, kind);
      SumAfterInsert(l.events, key, event, actor, kind);
      hide *;
      MinOfSum(Cap(kind), SumOver(Contributions(l.events, kind), EventsOf(l.events, actor)), Contribution(event.body, kind));
    }
  }

  lemma SumBefore(l: Ledger, actor: string, kind: Kind)
    requires AggregatesOk(l)
    ensures actor in l.actors ==>
      Counter(l.actors[actor], kind) == Min(Cap(kind), SumOver(Contributions(l.events, kind), EventsOf(l.events, actor)))
  {
    assert actor in l.actors ==> ActorOk(l.events, actor, l.actors[actor]);
  }

  /** Capping a running total at every step is capping the total. */
  lemma MinOfSum(cap: int, total: int, more: int)
    requires more >= 0
    ensures Min(cap, Min(cap, total) + more) == Min(cap, total + more)
  {
  }

  lemma EventSumsNonNegative(l: Ledger, actor: string, kind: Kind)
    requires AggregatesOk(l)
    ensures SumOver(Contributions(l.events, kind), EventsOf(l.events, actor)) >= 0
    ensures actor !in l.actors ==> SumOver(Contributions(l.events, kind), EventsOf(l.events, actor)) == 0
  {
    SumNonNegative(Contributions(l.events, kind), EventsOf(l.events, actor));
    if actor !in l.actors {
      assert EventsOf(l.events, actor) == {};
    }
  }

  lemma UpsertSeen(l: Ledger, key: string, event: EventRow, accountCreated: int)
    requires AggregatesOk(l) && key !in l.events
    ensures SeenOk(l.events[key := event], event.body.actorKey, Upsert(l.actors, event.body, event.createdMs, accountCreated))
  {
    var actor, more := event.body.actorKey, l.events[key := event];
    var row := Upsert(l.actors, event.body, event.createdMs, accountCreated);
    assert key in EventsOf(more, actor) && more[key].createdMs == event.createdMs;
    if actor in l.actors {
      var earlier := l.actors[actor];
      assert ActorOk(l.events, actor, earlier);
      var first :| first in EventsOf(l.events, actor) && l.events[first].createdMs == earlier.firstSeen;
      var last :| last in EventsOf(l.events, actor) && l.events[last].createdMs == earlier.lastSeen;
      assert first in EventsOf(more, actor) && last in EventsOf(more, actor);
      assert more[last].createdMs == row.lastSeen || more[key].createdMs == row.lastSeen;
    } else {
      assert EventsOf(l.events, actor) == {};
      assert EventsOf(more, actor) == EventsOf(l.events, actor) + {key};
    }
  }

  lemma OthersKeepAggregates(events: map<string, EventRow>, key: string, event: EventRow, actor: string, row: ActorRow)
    requires key !in events && event.body.actorKey != actor && CountsOk(events, actor, row) && SeenOk(events, actor, row)
    ensures CountsOk(events[key := event], actor, row) && SeenOk(events[key := event], actor, row)
  {
    var more := events[key := event];
    forall kind ensures Counter(row, kind) == Min(Cap(kind), SumOver(Contributions(more, kind), EventsOf(more, actor))) {
      SumAfterInsert(events, key, event, actor, kind);
    }
    assert EventsOf(more, actor) == EventsOf(events, actor);
  }

  /** Ingesting any message, new or known, keeps aggregates and events in step. */
  lemma IngestKeepsAggregates(b: Bridge, l: Ledger, m: Message, channelId: nat)
    requires AggregatesOk(l) && Ingest(b, l, m, channelId).Ok?
    ensures AggregatesOk(Ingest(b, l, m, channelId).value.0)
  {
    IngestSpec(b, l, m, channelId);
    hide Ingest, Upsert, AggregatesOk;
    var l' := Ingest(b, l, m, channelId).value.0;
    if l' != l {
      InsertKeepsAggregates(l, KeyOf(b, m), l'.events[KeyOf(b, m)], CreatedMs(m.authorId));
    }
  }

  lemma InsertKeepsAggregates(l: Ledger, key: string, event: EventRow, accountCreated: int)
    requires AggregatesOk(l) && key !in l.events
    requires 0 <= event.body.reactions <= MAX_REACTIONS && event.createdMs == CreatedMs(event.body.messageId)
    ensures AggregatesOk(l.(events := l.events[key := event],
                            actors := l.actors[event.body.actorKey :=
                                                 Upsert(l.actors, event.body, event.createdMs, accountCreated)]))
  {
    UpsertCounts(l, key, event, accountCreated);
    UpsertSeen(l, key, event, accountCreated);
    hide Upsert;
    var row := Upsert(l.actors, event.body, event.createdMs, accountCreated);
    InsertKeepsActors(l.events, l.actors, key, event, row);
    assert EventsOk(l.actors[event.body.actorKey := row], l.events[key := event]);
    hide ActorsOk, EventsOk;
  }

  lemma InsertKeepsActors(events: map<string, EventRow>, actors: map<string, ActorRow>, key: string, event: EventRow, row: ActorRow)
    requires ActorsOk(events, actors) && key !in events
    requires CountsOk(events[key := event], event.body.actorKey, row) && SeenOk(events[key := event], event.body.actorKey, row)
    ensures ActorsOk(events[key := event], actors[event.body.actorKey := row])
  {
    var actors' := actors[event.body.actorKey := row];
    hide CountsOk, SeenOk;
    forall a | a in actors' ensures ActorOk(events[key := event], a, actors'[a]) {
      if a != event.body.actorKey {
        assert ActorOk(events, a, actors[a]);
        OthersKeepAggregates(events, key, event, a, actors[a]);
      }
    }
  }

  lemma IngestSpec(b: Bridge, l: Ledger, m: Message, channelId: nat)
    requires Ingest(b, l, m, channelId).Ok?
    ensures var l', key := Ingest(b, l, m, channelId).value.0, KeyOf(b, m);
      l' != l ==>
        && key !in l.events && key in l'.events
        && var event := l'.events[key];
           && event.body == BodyOf(b, m) && event.createdMs == CreatedMs(event.body.messageId)
           && 0 <= event.body.reactions <= MAX_REACTIONS
           && l' == l.(events := l.events[key := event],
                       actors := l.actors[event.body.actorKey :=
                                            Upsert(l.actors, event.body, event.createdMs, CreatedMs(m.authorId))])
  {
    hide Upsert, TagsOf, MentionsBot;
    if Ingest(b, l, m, channelId).value.0 != l {
      ReactionsNonNegative(m.reactions);
    }
  }

  /** Ingesting messages one after another, all of them accepted. */
  function IngestAll(b: Bridge, l: Ledger, messages: seq<Message>): Result<Ledger>
    decreases |messages|
  {
    if messages == [] then Ok(l)
    else
      var r :- Ingest(b, l, messages[0], messages[0].channelId);
      IngestAll(b, r.0, messages[1..])
  }

  lemma {:induction false} IngestAllKeepsAggregates(b: Bridge, l: Ledger, messages: seq<Message>)
    requires AggregatesOk(l) && IngestAll(b, l, messages).Ok?
    ensures AggregatesOk(IngestAll(b, l, messages).value)
    decreases |messages|
  {
    if messages == [] {
    } else {
      IngestKeepsAggregates(b, l, messages[0], messages[0].channelId);
      IngestAllKeepsAggregates(b, Ingest(b, l, messages[0], messages[0].channelId).value.0, messages[1..]);
    }
  }

  ghost predicate StoresMessage(b: Bridge, events: map<string, EventRow>, m: Message) {
    IsOwn(b, m) || (KeyOf(b, m) in events && b.bodyHash(events[KeyOf(b, m)].body) == b.bodyHash(BodyOf(b, m)))
  }

  ghost predicate HasSource(b: Bridge, messages: seq<Message>, key: string, body: Body) {
    exists m :: m in messages && !IsOwn(b, m) && KeyOf(b, m) == key && BodyOf(b, m) == body
  }

  /** What the event table holds after ingesting: exactly the messages' events. */
  lemma {:induction false} IngestAllSpec(b: Bridge, l: Ledger, messages: seq<Message>)
    requires IngestAll(b, l, messages).Ok?
    ensures var events := IngestAll(b, l, messages).value.events;
      && (forall m :: m in messages ==> StoresMessage(b, events, m))
      && (forall k :: k in events ==> k in l.events || HasSource(b, messages, k, events[k].body))
      && (forall k :: k in l.events ==> k in events && events[k] == l.events[k])
    decreases |messages|
  {
    if messages == [] {
    } else {
      var next := Ingest(b, l, messages[0], messages[0].channelId).value.0;
      IngestAllSpec(b, next, messages[1..]);
      var events := IngestAll(b, l, messages).value.events;
      forall m | m in messages ensures StoresMessage(b, events, m) {
        assert m == messages[0] || m in messages[1..];
        assert StoresMessage(b, next.events, messages[0]);
      }
      forall k | k in events && k !in l.events ensures HasSource(b, messages, k, events[k].body) {
        if k in next.events {
          assert messages[0] in messages && KeyOf(b, messages[0]) == k && events[k] == next.events[k];
        } else {
          var m :| m in messages[1..] && !IsOwn(b, m) && KeyOf(b, m) == k && BodyOf(b, m) == events[k].body;
          assert m in messages;
        }
      }
    }
  }

  /** Two messages, one from either side, with different bodies and one hash. */
  ghost predicate BodiesCollide(b: Bridge, one: seq<Message>, two: seq<Message>) {
    exists m1, m2 :: m1 in one && m2 in two
      && BodyOf(b, m1) != BodyOf(b, m2) && b.bodyHash(BodyOf(b, m1)) == b.bodyHash(BodyOf(b, m2))
  }

  ghost predicate Alike(x: ActorRow, y: ActorRow) {
    x.lastSeen == y.lastSeen && forall kind :: Counter(x, kind) == Counter(y, kind)
  }

  /** Arrival order and repetition do not matter: two ledgers fed the same messages
      in any order, any of them any number of times, know the same actors with
      the same counters and last sightings -- unless two of those very messages
      have different bodies with one hash. */
  lemma OrderIndependent(b: Bridge, one: seq<Message>, two: seq<Message>, actor: string)
    requires IngestAll(b, BLANK, one).Ok? && IngestAll(b, BLANK, two).Ok?
    requires forall m :: m in one <==> m in two
    requires actor in IngestAll(b, BLANK, one).value.actors
    ensures || BodiesCollide(b, one, two)
            || (&& actor in IngestAll(b, BLANK, two).value.actors
                && Alike(IngestAll(b, BLANK, one).value.actors[actor], IngestAll(b, BLANK, two).value.actors[actor]))
  {
    var l1, l2 := IngestAll(b, BLANK, one).value, IngestAll(b, BLANK, two).value;
    IngestAllSpec(b, BLANK, one);
    IngestAllSpec(b, BLANK, two);
    IngestAllKeepsAggregates(b, BLANK, one);
    IngestAllKeepsAggregates(b, BLANK, two);
    hide IngestAll, KeyOf, BodyOf, AggregatesOk;
    SameEvents(b, one, two, l1.events, l2.events);
    SameEvents(b, two, one, l2.events, l1.events);
    if (forall k :: k in l1.events ==> l1.events[k].body == l2.events[k].body) {
      SameAggregates(l1, l2, actor);
    } else {
      var k :| k in l1.events && l1.events[k].body != l2.events[k].body;
      assert HasSource(b, one, k, l1.events[k].body) && HasSource(b, two, k, l2.events[k].body);
    }
  }

  lemma SameEvents(b: Bridge, one: seq<Message>, two: seq<Message>, e1: map<string, EventRow>, e2: map<string, EventRow>)
    requires forall m :: m in one ==> m in two
    requires forall m :: m in two ==> StoresMessage(b, e2, m)
    requires forall k :: k in e1 ==> HasSource(b, one, k, e1[k].body)
    ensures forall k :: k in e1 ==> k in e2 && b.bodyHash(e1[k].body) == b.bodyHash(e2[k].body)
  {
    forall k | k in e1 ensures k in e2 && b.bodyHash(e1[k].body) == b.bodyHash(e2[k].body) {
      var m :| m in one && !IsOwn(b, m) && KeyOf(b, m) == k && BodyOf(b, m) == e1[k].body;
      assert StoresMessage(b, e2, m);
    }
  }

  lemma SameAggregates(l1: Ledger, l2: Ledger, actor: string)
    requires AggregatesOk(l1) && AggregatesOk(l2) && actor in l1.actors
    requires l1.events.Keys == l2.events.Keys
    requires forall k :: k in l1.events ==> l1.events[k].body == l2.events[k].body
    ensures actor in l2.actors && Alike(l1.actors[actor], l2.actors[actor])
  {
    assert ActorOk(l1.events, actor, l1.actors[actor]);
    var k :| k in EventsOf(l1.events, actor) && l1.events[k].createdMs == l1.actors[actor].lastSeen;
    assert l2.events[k].body.actorKey == actor;
    assert ActorOk(l2.events, actor, l2.actors[actor]);
    forall k | k in l1.events ensures l1.events[k].createdMs == l2.events[k].createdMs {
    }
    hide AggregatesOk;
    SameSeen(l1.events, l2.events, actor, l1.actors[actor], l2.actors[actor]);
    SameCounts(l1.events, l2.events, actor, l1.actors[actor], l2.actors[actor]);
  }

  lemma SameSeen(e1: map<string, EventRow>, e2: map<string, EventRow>, actor: string, r1: ActorRow, r2: ActorRow)
    requires SeenOk(e1, actor, r1) && SeenOk(e2, actor, r2) && e1.Keys == e2.Keys
    requires forall k :: k in e1 ==> e1[k].body == e2[k].body
    requires forall k :: k in e1 ==> e1[k].createdMs == e2[k].createdMs
    ensures r1.lastSeen == r2.lastSeen
  {
    assert EventsOf(e1, actor) == EventsOf(e2, actor);
  }

  lemma SameCounts(e1: map<string, EventRow>, e2: map<string, EventRow>, actor: string, r1: ActorRow, r2: ActorRow)
    requires CountsOk(e1, actor, r1) && CountsOk(e2, actor, r2) && e1.Keys == e2.Keys
    requires forall k :: k in e1 ==> e1[k].body == e2[k].body
    ensures forall kind :: Counter(r1, kind) == Counter(r2, kind)
  {
    assert EventsOf(e1, actor) == EventsOf(e2, actor);
    forall kind ensures Counter(r1, kind) == Counter(r2, kind) {
      SumAgrees(Contributions(e1, kind), Contributions(e2, kind), EventsOf(e1, actor));
    }
  }
}
